/** One backup cycle: a snapshot, incremental tracking, the next snapshot, and
    the merge of the old image by the old index. */
module BackupCycle {
  import opened Blocks
  import opened Tracker
  import opened Protocol
  import opened Isolation
  import opened IncTracing
  import DelayRead
  import ReadWindow
  import UpdateImg

  datatype Phase = Snapshot | Incremental | NextSnapshot

  /** A write passing through in incremental mode, with its segments. */
  datatype Passing = Passing(write: Write, segs: seq<Segment>)

  datatype Cycle = Cycle(
    phase: Phase,
    first: State,                  // the first snapshot device, or what is left of it
    second: ReadWindow.Window,     // the next snapshot device, once there is one
    pending: seq<SectorSet>,     // sector sets not yet in the index
    marked: set<nat>,            // blocks marked with the filler
    passing: map<nat, Passing>,  // incremental-mode writes the device is executing
    writes: nat,
    incFail: bool,               // fail state of the incremental device
    lost: set<nat>,              // history: blocks of sector sets that could not be marked
    gone: bool,                  // the old COW file was deleted after a failure
    stray: set<nat>              // history: blocks changed by writes that are not traced
  )

  datatype Event =
    | First(step: Step)                      // the first device works, or drains
    | ToIncremental
    | IncWrite(write: Write, segs: seq<Segment>, ssets: seq<SectorSet>)
    | IncLost(write: Write, segs: seq<Segment>)  // no memory for a sector set
    | IncLand(id: nat, word: nat)
    | IncDone(id: nat)
    | SsetThread(ok: bool, done: nat)        // a failure may leave some blocks marked
    | ToSnapshot
    | Second(move: ReadWindow.Move)          // the next device works, its reads taken apart
    | StrayWrite(word: nat, value: Word)

  function BeginCycle(image: seq<Word>): Cycle
    requires |image| % 512 == 0
  {
    Cycle(Snapshot, Init(image), ReadWindow.Window(Init(image), None), [], {}, map[], 0, false, {}, false, {})
  }

  /** Freezing the file system waits for every intercepted write to finish. */
  predicate Quiet(t: Tracing) {
    t.traces == map[] && t.clones == map[] && t.origQ == [] && t.held == map[] && t.landing == {}
  }

  /** Exactly the foreign sectors of a write are reported. */
  ghost predicate Reports(ssets: seq<SectorSet>, segs: seq<Segment>, from: nat) {
    NoEmpty(ssets) && forall t: nat :: Reported(ssets, t) <==> Foreign(segs, from, t)
  }

  predicate ValidPassing(blocks: nat, p: Passing) {
    ValidWrite(blocks, p.write) && Length(p.segs) == p.write.sectors
  }

  ghost predicate Possible(c: Cycle, e: Event) {
    match e
    case First(step) => !step.Stray? && (c.phase == Snapshot || (c.phase == Incremental && step.CowThread?))
    case ToIncremental => c.phase == Snapshot && Quiet(c.first.t) && !c.first.fail
    case IncWrite(w, segs, ssets) =>
      && c.phase == Incremental && !c.incFail
      && ValidPassing(c.first.blocks, Passing(w, segs)) && Reports(ssets, segs, w.sector)
    case IncLost(w, segs) => c.phase == Incremental && ValidPassing(c.first.blocks, Passing(w, segs))
    case IncLand(id, word) => id in c.passing && Writes(c.passing[id].write, word) && word < |c.first.base|
    case IncDone(id) => id in c.passing
    case SsetThread(_, _) => c.phase != Snapshot && c.first.cowQ == [] && c.pending != []
    case ToSnapshot =>
      && c.phase == Incremental && c.passing == map[] && c.first.cowQ == [] && !c.incFail && !c.first.fail
      && |c.first.base| % 512 == 0
    case Second(move) => c.phase == NextSnapshot && !(move.Inner? && move.step.Stray?)
    case StrayWrite(word, _) => word < |c.first.base|
  }

  function BlocksOf(s: SectorSet): set<nat> {
    set b: nat | b < EndBlock(s.sect, s.len) && Touches(s.sect, s.len, b)
  }

  /** A change behind the back of whatever device is tracing. */
  ghost function Change(c: Cycle, word: nat, value: Word): Cycle {
    if c.phase == NextSnapshot then c.(second := ReadWindow.After(c.second, ReadWindow.Inner(Stray(word, value))))
    else c.(first := Next(c.first, Stray(word, value)))
  }

  /** One turn of the sector-set thread. In the fail state it deletes the file. */
  function Marking(c: Cycle, ok: bool, done: nat): Cycle
    requires c.pending != []
  {
    var sset, c' := c.pending[0], c.(pending := c.pending[1..]);
    if c.incFail then c'.(gone := true)
    else if ok then c'.(marked := c.marked + BlocksOf(sset))
    else
      c'.(incFail := true, lost := c.lost + BlocksOf(sset),
          marked := c.marked + set b: nat | b in BlocksOf(sset) && b < FirstBlock(sset.sect) + done)
  }

  ghost function After(c: Cycle, e: Event): Cycle
    requires Possible(c, e)
  {
    match e
    case First(step) => c.(first := Next(c.first, step))
    case ToIncremental => c.(phase := Incremental)
    case IncWrite(w, segs, ssets) =>
      c.(pending := c.pending + ssets, passing := c.passing[c.writes := Passing(w, segs)], writes := c.writes + 1)
    case IncLost(w, segs) =>
      c.(incFail := true, passing := c.passing[c.writes := Passing(w, segs)], writes := c.writes + 1)
    case IncLand(id, word) =>
      var p := c.passing[id];
      var c' := Change(c, word, p.write.payload[word - p.write.sector * 64]);
      if Foreign(p.segs, p.write.sector, word / 64) then c' else c'.(stray := c.stray + {word / 512})
    case IncDone(id) => c.(passing := c.passing - {id})
    case SsetThread(ok, done) => Marking(c, ok, done)
    case ToSnapshot => c.(phase := NextSnapshot, second := ReadWindow.Window(Init(c.first.base), None))
    case Second(move) => c.(second := ReadWindow.After(c.second, move))
    case StrayWrite(word, value) => Change(c, word, value).(stray := c.stray + {word / 512})
  }

  /** A run of the cycle; an event that is not possible changes nothing. */
  datatype Story = Opening(image: seq<Word>) | Continued(story: Story, event: Event)
  {
    predicate Valid() {
      match this
      case Opening(image) => |image| % 512 == 0
      case Continued(story, _) => story.Valid()
    }

    ghost function Final(): Cycle
      requires Valid()
    {
      match this
      case Opening(image) => BeginCycle(image)
      case Continued(story, e) =>
        if Possible(story.Final(), e) then After(story.Final(), e) else story.Final()
    }

    /** The next snapshot's copy-on-write thread overtakes no clone. */
    ghost predicate InOrder()
      requires Valid()
    {
      match this
      case Opening(_) => true
      case Continued(story, e) =>
        && story.InOrder()
        && (e.Second? && e.move.Inner? && e.move.step.CowThread? && story.Final().second.s.cowQ != [] ==>
              !DelayRead.Overtakes(story.Final().second.s.cowQ, story.Final().second.s.store.Keys))
    }

    /** No read of the next snapshot is answered whose words were overwritten in
        its window. */
    ghost predicate Undisturbed()
      requires Valid()
    {
      match this
      case Opening(_) => true
      case Continued(story, e) =>
        && story.Undisturbed()
        && (e.Second? && e.move.Give? && ReadWindow.Allowed(story.Final().second, e.move) ==>
              ReadWindow.Quiet(story.Final().second.s, story.Final().second.hand.value))
    }
  }

  /** The nonzero entries of the old index. */
  function Index(c: Cycle): set<nat> {
    c.first.store.Keys + c.marked
  }

  // ---------------------------------------------------------------- invariants

  predicate Noted(c: Cycle, b: nat) {
    b in c.marked || b in c.lost || BlockReported(c.pending, b)
  }

  /** Changes that the first snapshot did not trace are reported, or stray. */
  predicate ChangesNoted(c: Cycle) {
    forall b :: b in c.first.untraced ==> b in c.stray || Noted(c, b)
  }

  /** Foreign sectors of writes still executing have been reported. */
  ghost predicate PassingNoted(c: Cycle) {
    forall id, t: nat :: id in c.passing && Foreign(c.passing[id].segs, c.passing[id].write.sector, t) ==>
      Noted(c, t / 8)
  }

  /** The devices are in order and fit the phase. */
  ghost predicate Staged(c: Cycle) {
    && Good(c.first) && Good(c.second.s)
    && (c.phase != Snapshot ==> Quiet(c.first.t))
    && (c.phase == Snapshot ==> c.passing == map[] && c.first.untraced <= c.stray)
    && (c.phase == NextSnapshot ==>
          && c.passing == map[] && c.first.cowQ == [] && !c.first.fail
          && c.second.s.snap == c.first.base && c.second.s.blocks == c.first.blocks)
  }

  /** Up to the first failure, and after one that came too late to stop the
      transition, unless the file is gone. */
  predicate Accountable(c: Cycle) {
    !c.incFail || (c.phase == NextSnapshot && !c.gone)
  }

  ghost predicate NothingMissed(c: Cycle) {
    && (!c.incFail ==> c.lost == {} && !c.gone)
    && (Accountable(c) ==> ChangesNoted(c) && PassingNoted(c))
  }

  ghost predicate Sane(c: Cycle) {
    Staged(c) && NothingMissed(c)
  }

  lemma NotedStays(c: Cycle, c': Cycle, b: nat)
    requires Noted(c, b) && c.marked <= c'.marked && c.lost <= c'.lost
    requires forall s :: s in c.pending ==> s in c'.pending || BlocksOf(s) <= c'.marked || BlocksOf(s) <= c'.lost
    ensures Noted(c', b)
  {
    if b !in c.marked && b !in c.lost {
      var i :| 0 <= i < |c.pending| && Touches(c.pending[i].sect, c.pending[i].len, b);
      var s := c.pending[i];
      assert s in c.pending && b in BlocksOf(s);
      if s in c'.pending {
        var j :| 0 <= j < |c'.pending| && c'.pending[j] == s;
      }
    }
  }

  lemma NewWriteNoted(c: Cycle, w: Write, segs: seq<Segment>, ssets: seq<SectorSet>, t: nat)
    requires Reports(ssets, segs, w.sector) && Foreign(segs, w.sector, t)
    ensures Noted(c.(pending := c.pending + ssets), t / 8)
  {
    assert Reported(ssets, t);
    var i :| 0 <= i < |ssets| && Contains(ssets[i], t);
    var q := c.pending + ssets;
    assert q[|c.pending| + i] == ssets[i];
    assert Touches(ssets[i].sect, ssets[i].len, t / 8);
  }

  lemma StrayEffect(s: State, word: nat, value: Word)
    ensures var s' := Next(s, Stray(word, value));
            && s'.t == s.t && s'.fail == s.fail && s'.cowQ == s.cowQ && s'.blocks == s.blocks
            && s'.untraced <= s.untraced + {word / 512}
  {
  }

  lemma FirstChanged(s: State, word: nat, value: Word)
    requires Good(s)
    ensures var s' := Next(s, Stray(word, value));
            && Good(s') && s'.t == s.t && s'.fail == s.fail && s'.cowQ == s.cowQ && s'.blocks == s.blocks
            && s'.untraced <= s.untraced + {word / 512}
  {
    StepGood(s, Stray(word, value));
    StrayEffect(s, word, value);
  }

  lemma ChangeKeeps(c: Cycle, word: nat, value: Word)
    requires Sane(c)
    ensures var c' := Change(c, word, value);
            && Good(c'.first) && Good(c'.second.s) && c'.first.t == c.first.t && c'.first.fail == c.first.fail
            && c'.first.cowQ == c.first.cowQ && c'.first.blocks == c.first.blocks
            && c'.first.untraced <= c.first.untraced + {word / 512}
            && (c.phase == NextSnapshot ==>
                  && c'.first == c.first
                  && c'.second.s.snap == c.second.s.snap && c'.second.s.blocks == c.second.s.blocks)
            && c' == c.(first := c'.first, second := c'.second)
  {
    if c.phase == NextSnapshot {
      ReadWindow.MoveGood(c.second, ReadWindow.Inner(Stray(word, value)));
    } else {
      FirstChanged(c.first, word, value);
    }
  }

  /** A word of a passing write lands: traced by its segment, or stray. */
  lemma LandIsChange(c: Cycle, id: nat, word: nat) returns (value: Word, stray: set<nat>)
    requires Possible(c, IncLand(id, word))
    ensures After(c, IncLand(id, word)) == Change(c, word, value).(stray := stray)
    ensures c.stray <= stray
    ensures word / 512 in stray || Foreign(c.passing[id].segs, c.passing[id].write.sector, word / 64)
  {
    var p := c.passing[id];
    value := p.write.payload[word - p.write.sector * 64];
    stray := if Foreign(p.segs, p.write.sector, word / 64) then c.stray else c.stray + {word / 512};
  }

  lemma TracedStepsLeaveUntraced(s: State, step: Step)
    requires !step.Stray?
    ensures Next(s, step).untraced == s.untraced
  {
  }

  lemma QuietStays(s: State, outcome: Handling)
    requires Quiet(s.t)
    ensures Quiet(Next(s, CowThread(outcome)).t)
  {
    if s.cowQ != [] { CowThreadFrame(s, outcome); }
  }

  lemma FirstKeeps(c: Cycle, step: Step)
    requires Sane(c) && Possible(c, First(step))
    ensures Sane(After(c, First(step)))
  {
    StepGood(c.first, step);
    TracedStepsLeaveUntraced(c.first, step);
    if step.CowThread? && c.phase == Incremental { QuietStays(c.first, step.outcome); }
    var c' := After(c, First(step));
    assert forall b :: Noted(c, b) ==> Noted(c', b);
  }

  lemma SecondKeeps(c: Cycle, move: ReadWindow.Move)
    requires Sane(c) && Possible(c, Second(move))
    ensures Sane(After(c, Second(move)))
  {
    ReadWindow.MoveGood(c.second, move);
    var c' := After(c, Second(move));
    assert forall b :: Noted(c, b) ==> Noted(c', b);
  }

  lemma AllNotedStay(c: Cycle, c': Cycle)
    requires c.marked <= c'.marked && c.lost <= c'.lost
    requires forall s :: s in c.pending ==> s in c'.pending || BlocksOf(s) <= c'.marked || BlocksOf(s) <= c'.lost
    ensures forall b :: Noted(c, b) ==> Noted(c', b)
  {
    forall b | Noted(c, b)
      ensures Noted(c', b)
    {
      NotedStays(c, c', b);
    }
  }

  lemma IncWriteKeeps(c: Cycle, w: Write, segs: seq<Segment>, ssets: seq<SectorSet>)
    requires Sane(c) && Possible(c, IncWrite(w, segs, ssets))
    ensures Sane(After(c, IncWrite(w, segs, ssets)))
  {
    var c' := After(c, IncWrite(w, segs, ssets));
    AllNotedStay(c, c');
    forall id, t: nat | id in c'.passing && Foreign(c'.passing[id].segs, c'.passing[id].write.sector, t)
      ensures Noted(c', t / 8)
    {
      if id == c.writes {
        NewWriteNoted(c, w, segs, ssets, t);
      } else {
        assert Noted(c, t / 8);
      }
    }
  }

  lemma LandedWordNoted(c: Cycle, id: nat, word: nat)
    requires PassingNoted(c) && id in c.passing
    requires Foreign(c.passing[id].segs, c.passing[id].write.sector, word / 64)
    ensures Noted(c, word / 512)
  {
    var t: nat := word / 64;
    assert Noted(c, t / 8);
    assert t / 8 == word / 512;
  }

  lemma SameNotes(c: Cycle, c': Cycle)
    requires c'.pending == c.pending && c'.marked == c.marked && c'.lost == c.lost && c'.passing == c.passing
    ensures PassingNoted(c) ==> PassingNoted(c')
  {
    AllNotedStay(c, c');
    if PassingNoted(c) {
      forall id, t: nat | id in c'.passing && Foreign(c'.passing[id].segs, c'.passing[id].write.sector, t)
        ensures Noted(c', t / 8)
      {
        assert Noted(c, t / 8);
      }
    }
  }

  /** One changed block, noted or stray, keeps the notes complete. */
  lemma ChangeNoted(c: Cycle, c': Cycle, b: nat)
    requires ChangesNoted(c)
    requires c'.pending == c.pending && c'.marked == c.marked && c'.lost == c.lost && c.stray <= c'.stray
    requires c'.first.untraced <= c.first.untraced + {b}
    requires b in c'.stray || Noted(c, b)
    ensures ChangesNoted(c')
  {
    AllNotedStay(c, c');
  }

  lemma ChangeStaged(c: Cycle, word: nat, value: Word, stray: set<nat>)
    requires Sane(c) && c.stray <= stray
    requires c.phase == Snapshot ==> word / 512 in stray
    ensures Staged(Change(c, word, value).(stray := stray))
  {
    ChangeKeeps(c, word, value);
  }

  lemma ChangeComplete(c: Cycle, word: nat, value: Word, stray: set<nat>)
    requires Sane(c) && c.stray <= stray
    requires !Accountable(c) || word / 512 in stray || Noted(c, word / 512)
             || c.phase == NextSnapshot
    ensures NothingMissed(Change(c, word, value).(stray := stray))
  {
    ChangeKeeps(c, word, value);
    var c' := Change(c, word, value).(stray := stray);
    SameNotes(c, c');
    if Accountable(c) {
      if c.phase == NextSnapshot { AllNotedStay(c, c'); } else { ChangeNoted(c, c', word / 512); }
    }
  }

  lemma LandKeeps(c: Cycle, id: nat, word: nat)
    requires Sane(c) && Possible(c, IncLand(id, word))
    ensures Sane(After(c, IncLand(id, word)))
  {
    var value, stray := LandIsChange(c, id, word);
    if Accountable(c) && word / 512 !in stray { LandedWordNoted(c, id, word); }
    ChangeStaged(c, word, value, stray);
    ChangeComplete(c, word, value, stray);
  }

  lemma StrayKeeps(c: Cycle, word: nat, value: Word)
    requires Sane(c) && Possible(c, StrayWrite(word, value))
    ensures Sane(After(c, StrayWrite(word, value)))
  {
    ChangeStaged(c, word, value, c.stray + {word / 512});
    ChangeComplete(c, word, value, c.stray + {word / 512});
  }

  lemma MarkedOrLost(c: Cycle, ok: bool, done: nat)
    requires c.pending != [] && !c.incFail
    ensures var c' := Marking(c, ok, done);
            && c.marked <= c'.marked && c.lost <= c'.lost && (ok ==> c'.lost == c.lost)
            && forall s :: s in c.pending ==> s in c'.pending || BlocksOf(s) <= c'.marked || BlocksOf(s) <= c'.lost
  {
    assert c.pending == [c.pending[0]] + c.pending[1..];
  }

  lemma MarkingStaged(c: Cycle, ok: bool, done: nat)
    requires Staged(c) && c.pending != []
    ensures Staged(Marking(c, ok, done))
  {
  }

  lemma MarkingComplete(c: Cycle, ok: bool, done: nat)
    requires NothingMissed(c) && c.pending != [] && !c.incFail
    ensures NothingMissed(Marking(c, ok, done))
  {
    var c' := Marking(c, ok, done);
    MarkedOrLost(c, ok, done);
    AllNotedStay(c, c');
    assert c'.first == c.first && c'.passing == c.passing && c'.stray == c.stray;
    forall id, t: nat | id in c'.passing && Foreign(c'.passing[id].segs, c'.passing[id].write.sector, t)
      ensures Noted(c', t / 8)
    {
      assert Noted(c, t / 8);
    }
  }

  lemma SsetKeeps(c: Cycle, ok: bool, done: nat)
    requires Sane(c) && Possible(c, SsetThread(ok, done))
    ensures Sane(After(c, SsetThread(ok, done)))
  {
    MarkingStaged(c, ok, done);
    if !c.incFail { MarkingComplete(c, ok, done); }
  }

  lemma InitGood(image: seq<Word>)
    requires |image| % 512 == 0
    ensures Good(Init(image))
  {
    RunGood(Run.Start(image));
  }

  lemma TurnKeeps(c: Cycle, e: Event)
    requires Sane(c) && Possible(c, e) && (e.ToIncremental? || e.ToSnapshot? || e.IncDone? || e.IncLost?)
    ensures Sane(After(c, e))
  {
    AllNotedStay(c, After(c, e));
    if e.ToSnapshot? { InitGood(c.first.base); }
  }

  lemma EventKeeps(c: Cycle, e: Event)
    requires Sane(c) && Possible(c, e)
    ensures Sane(After(c, e))
  {
    match e
    case First(step) => FirstKeeps(c, step);
    case Second(move) => SecondKeeps(c, move);
    case IncWrite(w, segs, ssets) => IncWriteKeeps(c, w, segs, ssets);
    case IncLand(id, word) => LandKeeps(c, id, word);
    case StrayWrite(word, value) => StrayKeeps(c, word, value);
    case SsetThread(ok, done) => SsetKeeps(c, ok, done);
    case _ => TurnKeeps(c, e);
  }

  lemma {:induction false} StorySane(story: Story)
    requires story.Valid()
    ensures Sane(story.Final())
  {
    match story
    case Opening(image) => InitGood(image);
    case Continued(prev, e) =>
      StorySane(prev);
      if Possible(prev.Final(), e) { EventKeeps(prev.Final(), e); }
  }

  /** The block an event changes without the tracer's knowledge: a stray write, or a
      word that lands from a segment of the COW file. */
  ghost function Unseen(c: Cycle, e: Event): set<nat> {
    match e
    case StrayWrite(word, _) => {word / 512}
    case IncLand(id, word) =>
      if id in c.passing && !Foreign(c.passing[id].segs, c.passing[id].write.sector, word / 64) then {word / 512}
      else {}
    case _ => {}
  }

  ghost function UnseenBlocks(story: Story): set<nat>
    requires story.Valid()
  {
    match story
    case Opening(_) => {}
    case Continued(prev, e) =>
      UnseenBlocks(prev) + if Possible(prev.Final(), e) then Unseen(prev.Final(), e) else {}
  }

  lemma EventUnseen(c: Cycle, e: Event)
    requires Possible(c, e)
    ensures After(c, e).stray == c.stray + Unseen(c, e)
  {
  }

  /** What the backup leaves out is exactly what such events changed. */
  lemma {:induction false} StrayExactly(story: Story)
    requires story.Valid()
    ensures story.Final().stray == UnseenBlocks(story)
  {
    match story
    case Opening(_) =>
    case Continued(prev, e) =>
      StrayExactly(prev);
      if Possible(prev.Final(), e) { EventUnseen(prev.Final(), e); }
  }

  /** Between the two snapshots something changed in this block. */
  predicate Differs(c: Cycle, b: nat) {
    && (b + 1) * 512 <= |c.first.snap| && (b + 1) * 512 <= |c.second.s.snap|
    && BlockAt(c.first.snap, b) != BlockAt(c.second.s.snap, b)
  }

  /** The next snapshot exists, and the old index file is final. */
  predicate Settled(c: Cycle) {
    c.phase == NextSnapshot && c.pending == [] && !c.gone
  }

  lemma ChangedIndexedOrLost(story: Story, b: nat)
    requires story.Valid() && Settled(story.Final()) && b !in story.Final().stray
    ensures var c := story.Final(); Differs(c, b) ==> b in Index(c) || b in c.lost
    ensures var c := story.Final();
            |c.first.snap| == |c.second.s.snap| == c.first.blocks * 512 && (!c.incFail ==> c.lost == {})
  {
    StorySane(story);
    var c := story.Final();
    if b in c.first.untraced { assert Noted(c, b); }
  }

  /** The old index is complete: once the next snapshot exists and the sector
      sets are in, every block whose contents differ between the two snapshots
      has a nonzero entry, unless a write that is not traced changed it. */
  lemma ChangedBlocksAreIndexed(story: Story, b: nat)
    requires story.Valid()
    requires var c := story.Final();
             Settled(c) && !c.incFail && b < c.first.blocks && b !in c.stray
    ensures var c := story.Final();
            && |c.first.snap| == |c.second.s.snap| == c.first.blocks * 512
            && (BlockAt(c.first.snap, b) != BlockAt(c.second.s.snap, b) ==> b in Index(c))
  {
    ChangedIndexedOrLost(story, b);
  }

  ghost predicate IndexComplete(c: Cycle) {
    forall b :: b !in c.stray && Differs(c, b) ==> b in Index(c)
  }

  /** Exactly when a failure that came after the transition leaves a complete
      index: each changed block of the last sector set has an entry anyway. */
  lemma CompleteExactly(story: Story)
    requires story.Valid() && Settled(story.Final())
    ensures var c := story.Final();
            IndexComplete(c) <==> forall b :: b in c.lost && b !in c.stray && Differs(c, b) ==> b in Index(c)
  {
    var c := story.Final();
    forall b | b !in c.stray && Differs(c, b)
      ensures b in Index(c) || b in c.lost
    {
      ChangedIndexedOrLost(story, b);
    }
  }

  // --------------------------------------------------------------------- merge

  /** The next snapshot device answered a read of exactly this block. */
  ghost predicate WasRead(s: State, b: nat, page: Page) {
    exists k :: 0 <= k < |s.answers| && s.answers[k] == Answer(b * 8, 8, page)
  }

  ghost predicate SecondOrdered(c: Cycle) {
    ReadWindow.WindowOk(c.second) && AnswersRight(c.second.s)
  }

  lemma SecondMoveOrdered(c: Cycle, move: ReadWindow.Move)
    requires SecondOrdered(c)
    requires move.Inner? && move.step.CowThread? && c.second.s.cowQ != [] ==>
               !DelayRead.Overtakes(c.second.s.cowQ, c.second.s.store.Keys)
    requires move.Give? && ReadWindow.Allowed(c.second, move) ==> ReadWindow.Quiet(c.second.s, c.second.hand.value)
    ensures SecondOrdered(c.(second := ReadWindow.After(c.second, move)))
  {
    ReadWindow.MoveKeeps(c.second, move);
    ReadWindow.MoveAnswers(c.second, move);
  }

  lemma FreshWindow(image: seq<Word>)
    requires |image| % 512 == 0
    ensures ReadWindow.WindowOk(ReadWindow.Window(Init(image), None)) && AnswersRight(Init(image))
  {
    InitGood(image);
  }

  lemma SameSecond(c: Cycle, c': Cycle)
    requires SecondOrdered(c) && c'.second == c.second
    ensures SecondOrdered(c')
  {
  }

  lemma ChangeOrdered(c: Cycle, word: nat, value: Word)
    requires SecondOrdered(c)
    ensures SecondOrdered(Change(c, word, value))
  {
    SecondMoveOrdered(c, ReadWindow.Inner(Stray(word, value)));
  }

  lemma LandOrdered(c: Cycle, id: nat, word: nat)
    requires SecondOrdered(c) && Possible(c, IncLand(id, word))
    ensures SecondOrdered(After(c, IncLand(id, word)))
  {
    var value, stray := LandIsChange(c, id, word);
    ChangeOrdered(c, word, value);
    SameSecond(Change(c, word, value), After(c, IncLand(id, word)));
  }

  lemma StrayOrdered(c: Cycle, word: nat, value: Word)
    requires SecondOrdered(c) && Possible(c, StrayWrite(word, value))
    ensures SecondOrdered(After(c, StrayWrite(word, value)))
  {
    ChangeOrdered(c, word, value);
    SameSecond(Change(c, word, value), After(c, StrayWrite(word, value)));
  }

  lemma RestOrdered(c: Cycle, e: Event)
    requires SecondOrdered(c) && Possible(c, e)
    requires !e.Second? && !e.ToSnapshot? && !e.IncLand? && !e.StrayWrite?
    ensures SecondOrdered(After(c, e))
  {
    SameSecond(c, After(c, e));
  }

  lemma EventOrdered(c: Cycle, e: Event)
    requires SecondOrdered(c) && Possible(c, e)
    requires e.Second? && e.move.Inner? && e.move.step.CowThread? && c.second.s.cowQ != [] ==>
               !DelayRead.Overtakes(c.second.s.cowQ, c.second.s.store.Keys)
    requires e.Second? && e.move.Give? && ReadWindow.Allowed(c.second, e.move) ==>
               ReadWindow.Quiet(c.second.s, c.second.hand.value)
    ensures SecondOrdered(After(c, e))
  {
    match e
    case Second(move) => SecondMoveOrdered(c, move);
    case ToSnapshot => FreshWindow(c.first.base);
    case StrayWrite(word, value) => StrayOrdered(c, word, value);
    case IncLand(id, word) => LandOrdered(c, id, word);
    case _ => RestOrdered(c, e);
  }

  lemma {:induction false} StoryOrdered(story: Story)
    requires story.Valid() && story.InOrder() && story.Undisturbed()
    ensures SecondOrdered(story.Final())
  {
    match story
    case Opening(image) => FreshWindow(image);
    case Continued(prev, e) =>
      StoryOrdered(prev);
      if Possible(prev.Final(), e) { EventOrdered(prev.Final(), e); }
  }

  lemma ReadWordRight(s: State, b: nat, page: Page, k: nat, i: nat)
    requires |s.snap| == s.blocks * 512 && AnswersRight(s) && k < |s.answers| && s.answers[k] == Answer(b * 8, 8, page)
    requires |page| == 512 && b < s.blocks && b !in s.untraced && i < 512
    ensures page[i] == BlockAt(s.snap, b)[i]
  {
    assert SameWord(s, s.answers[k], i);
    assert (b * 8 * 64 + i) / 512 == b;
  }

  lemma ReadBlockRight(s: State, b: nat, page: Page)
    requires |s.snap| == s.blocks * 512 && AnswersRight(s) && WasRead(s, b, page)
    requires |page| == 512 && b < s.blocks && b !in s.untraced
    ensures page == BlockAt(s.snap, b)
  {
    var k :| 0 <= k < |s.answers| && s.answers[k] == Answer(b * 8, 8, page);
    forall i | 0 <= i < 512
      ensures page[i] == BlockAt(s.snap, b)[i]
    {
      ReadWordRight(s, b, page, k, i);
    }
  }

  /** The image of blocks as read from the next snapshot device. */
  function Reads(pages: seq<Page>): (image: seq<Word>)
    requires forall b :: 0 <= b < |pages| ==> |pages[b]| == 512
    ensures |image| == |pages| * 512
    ensures forall b :: 0 <= b < |pages| ==> BlockAt(image, b) == pages[b]
  {
    var image := seq<Word>(|pages| * 512, i requires 0 <= i < |pages| * 512 => pages[i / 512][i % 512]);
    assert forall b, k :: 0 <= b < |pages| && 0 <= k < 512 ==> image[b * 512 + k] == pages[b][k] by {
      forall b, k | 0 <= b < |pages| && 0 <= k < 512
        ensures image[b * 512 + k] == pages[b][k]
      {
        assert (b * 512 + k) / 512 == b && (b * 512 + k) % 512 == k;
      }
    }
    image
  }

  /** The backup is right: an image equal to the first snapshot, updated by the
      old index with what the next snapshot device answers, equals the next
      snapshot on every block that only traced writes changed. */
  lemma MergedImageIsNextSnapshot(story: Story, img: seq<Word>, pages: seq<Page>, b: nat)
    requires story.Valid() && story.InOrder() && story.Undisturbed()
    requires var c := story.Final();
             && Settled(c) && !c.incFail
             && |img| == |c.first.snap| == c.first.blocks * 512 && |pages| == c.first.blocks
             && (forall i :: 0 <= i < |pages| ==> |pages[i]| == 512)
             && (forall i :: 0 <= i < |pages| && i in Index(c) ==> WasRead(c.second.s, i, pages[i]))
             && b < c.first.blocks && b !in c.stray && b !in c.second.s.untraced
             && BlockAt(img, b) == BlockAt(c.first.snap, b)
    ensures var c := story.Final();
            && |c.second.s.snap| == |img|
            && BlockAt(UpdateImg.Merge(img, Index(c), Reads(pages)), b) == BlockAt(c.second.s.snap, b)
  {
    StorySane(story);
    StoryOrdered(story);
    var c := story.Final();
    UpdateImg.MergedBlock(img, Index(c), Reads(pages), b);
    ChangedBlocksAreIndexed(story, b);
    if b in Index(c) { ReadBlockRight(c.second.s, b, pages[b]); }
  }

  /** The words of an index file mark exactly these blocks. */
  predicate WordsMark(index: seq<Word>, blocks: nat, marked: set<nat>) {
    blocks <= |index| && forall b :: 0 <= b < blocks ==> (index[b] != 0 <==> b in marked)
  }

  /** The same for a run of the tool on the index file: if it reports no error and
      the system cut no transfer of a marked block short, the image it leaves
      equals the next snapshot on every block that only traced writes changed. */
  lemma UpdatedImageIsNextSnapshot(story: Story, img: seq<Word>, now: seq<Word>, pages: seq<Page>, index: seq<Word>,
                                   io: UpdateImg.Transfers, errno: nat, count: nat, tally: UpdateImg.Tally, b: nat)
    requires story.Valid() && story.InOrder() && story.Undisturbed()
    requires var c := story.Final();
             && Settled(c) && !c.incFail
             && |img| == |c.first.snap| == c.first.blocks * 512 && |pages| == c.first.blocks
             && (forall i :: 0 <= i < |pages| ==> |pages[i]| == 512)
             && (forall i :: 0 <= i < |pages| && i in Index(c) ==> WasRead(c.second.s, i, pages[i]))
             && b < c.first.blocks && b !in c.stray && b !in c.second.s.untraced
             && BlockAt(img, b) == BlockAt(c.first.snap, b)
             && WordsMark(index, c.first.blocks, Index(c))
             && UpdateImg.MergedBelow(img, now, index, c.first.blocks, io, c.first.blocks * 4096, Reads(pages), errno,
                                      count, tally)
             && tally.errors == 0
             && (forall i :: i in UpdateImg.MarkedBelow(index, c.first.blocks) ==> !UpdateImg.CutShort(io, i))
    ensures var c := story.Final();
            |c.second.s.snap| == |now| == |img| && BlockAt(now, b) == BlockAt(c.second.s.snap, b)
  {
    var c := story.Final();
    var n := c.first.blocks;
    UpdateImg.NoErrorsExactly(index, n, io, n * 4096, errno);
    forall i | i in UpdateImg.MarkedBelow(index, n)
      ensures UpdateImg.IsCopied(io, n * 4096, i)
    {
      assert !UpdateImg.IsFailed(io, n * 4096, i) && !UpdateImg.CutShort(io, i);
    }
    UpdateImg.CopiedIsMerge(img, index, n, io, n * 4096, Reads(pages));
    MergedImageIsNextSnapshot(story, img, pages, b);
    UpdateImg.MergedBlock(img, Index(c), Reads(pages), b);
    UpdateImg.MergedBlock(img, UpdateImg.MarkedBelow(index, n), Reads(pages), b);
    assert b in UpdateImg.MarkedBelow(index, n) <==> b in Index(c);
  }
}
