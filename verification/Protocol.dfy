/** The copy-on-write protocol of a traced device in snapshot mode, as a state
    machine over the steps of its actors: intercepted writes, read clones, the
    device, and the read, release and copy-on-write threads. */
module Protocol {
  import opened Blocks
  import opened Tracker
  import DelayRead

  datatype Answer = Answer(sector: nat, sectors: nat, data: seq<Word>)

  datatype State = State(
    blocks: nat,            // size of the device
    snap: seq<Word>,        // device contents when the snapshot was set up
    base: seq<Word>,        // live device contents
    fail: bool,             // the device's sticky fail state
    t: Tracing,             // intercepted writes and their clones
    cowQ: seq<Bio>,         // captured clones and snapshot reads
    store: map<nat, Page>,  // copy-on-write store
    answers: seq<Answer>,   // completed snapshot reads
    submitted: nat,         // sd_submitted_cnt
    received: nat,          // sd_received_cnt
    broken: nat,            // history: clones whose read failed
    firsts: map<nat, Page>, // history: contents of the first clone queued for a block
    untraced: set<nat>      // history: blocks changed behind the tracer's back
  )

  datatype Handling = Handled | Failed(stored: nat)

  datatype Step =
    | BeginTrace(write: Write)            // tracing parameters allocated
    | PassWrite(write: Write)             // allocation failed, or already failed
    | IssueClone(id: nat, pages: nat)
    | AbortTrace(id: nat)                 // making or registering a clone failed
    | FinishTrace(id: nat)                // all clones issued, holder dropped
    | SubmitClone                         // read thread
    | CaptureBlock(clone: nat, block: nat)// device reads one block of a clone
    | CompleteClone(clone: nat, ok: bool) // completion callback
    | SubmitOriginal                      // release thread
    | Land(id: nat, word: nat)            // device writes one word
    | Acknowledge(id: nat)
    | SnapshotRequest(sector: nat, sectors: nat)
    | CowThread(outcome: Handling)        // one iteration of the cow thread
    | Stray(word: nat, value: Word)       // discards and cow-file pages

  function Init(image: seq<Word>): State
    requires |image| % 512 == 0
  {
    State(|image| / 512, image, image, false, IDLE, [], map[], [], 0, 0, 0, map[], {})
  }

  predicate ValidWrite(blocks: nat, w: Write) {
    && w.sectors > 0
    && w.sector + w.sectors <= blocks * 8
    && |w.payload| == w.sectors * 64
  }

  /** Words of the device that a write overwrites. */
  predicate Writes(w: Write, word: nat) {
    w.sector * 64 <= word < (w.sector + w.sectors) * 64 && |w.payload| == w.sectors * 64
  }

  predicate FullyRead(clone: Clone) {
    clone.first < clone.end && forall b :: clone.first <= b < clone.end ==> b in clone.got
  }

  predicate Enabled(s: State, step: Step) {
    match step
    case BeginTrace(w) => !s.fail && ValidWrite(s.blocks, w)
    case PassWrite(w) => ValidWrite(s.blocks, w)
    case IssueClone(id, pages) =>
      && id in s.t.traces && s.t.traces[id].holder
      && 0 < pages <= s.t.traces[id].end - s.t.traces[id].next
    case AbortTrace(id) => id in s.t.traces && s.t.traces[id].holder
    case FinishTrace(id) =>
      id in s.t.traces && s.t.traces[id].holder && s.t.traces[id].next == s.t.traces[id].end
    case SubmitClone => s.t.readQ != []
    case CaptureBlock(c, b) =>
      && c in s.t.clones && s.t.clones[c].sent
      && s.t.clones[c].first <= b < s.t.clones[c].end
      && (b + 1) * 512 <= |s.base|
    case CompleteClone(c, ok) =>
      && c in s.t.clones && s.t.clones[c].sent && s.t.clones[c].owner in s.t.traces
      && (ok ==> FullyRead(s.t.clones[c]))
    case SubmitOriginal => s.t.origQ != []
    case Land(id, word) =>
      id in s.t.landing && id in s.t.held && word < |s.base| && Writes(s.t.held[id], word)
    case Acknowledge(id) => id in s.t.landing
    case SnapshotRequest(sector, sectors) => !s.fail && sector + sectors <= s.blocks * 8
    case CowThread(_) => s.cowQ != []
    case Stray(word, _) => word < |s.base|
  }

  /** The completed clone, in the coordinates its sector map restores. */
  function Captured(id: nat, c: Clone): (bio: Bio)
    requires FullyRead(c)
  {
    Bio(id, true, c.first * 8, (c.end - c.first) * 8,
        seq(c.end - c.first, i requires 0 <= i < c.end - c.first => c.got[c.first + i]))
  }

  predicate Readable(s: State, bio: Bio) {
    && (bio.sector + bio.sectors) * 64 <= |s.base|
    && forall b :: b in s.store ==> |s.store[b]| == 512
  }

  /** A failed device ends reads with an error and drops clones. */
  function Handle(s: State, bio: Bio, outcome: Handling): State {
    if s.fail then s
    else if bio.write then
      (match outcome
       case Handled => s.(store := StoreClone(s.store, bio))
       case Failed(n) => s.(fail := true,
                            store := StorePages(s.store, FirstBlock(bio.sector),
                                                bio.pages[..Min(n, |bio.pages|)])))
    else if outcome.Handled? && Readable(s, bio) then
      s.(answers := s.answers
                    + [Answer(bio.sector, bio.sectors, SnapshotRead(s.base, s.store, bio.sector, bio.sectors))])
    else s.(fail := true)
  }

  function Queue(s: State, bio: Bio): State {
    s.(cowQ := s.cowQ + [bio], received := s.received + 1,
       firsts := StoreClone(s.firsts, bio))
  }

  /** One step; a step that is not enabled changes nothing. */
  function Next(s: State, step: Step): State {
    if !Enabled(s, step) then s else
    match step
    case BeginTrace(w) => s.(t := Begin(s.t, w))
    case PassWrite(w) => s.(fail := true, t := LetThrough(s.t, w))
    case IssueClone(id, pages) => s.(t := Issue(s.t, id, pages), submitted := s.submitted + 1)
    case AbortTrace(id) => s.(fail := true, t := DropHolder(s.t, id))
    case FinishTrace(id) => s.(t := DropHolder(s.t, id))
    case SubmitClone => s.(t := Submit(s.t))
    case CaptureBlock(c, b) => s.(t := Capture(s.t, c, b, BlockAt(s.base, b)))
    case CompleteClone(c, ok) =>
      var s' := s.(t := Complete(s.t, c));
      if ok then Queue(s', Captured(c, s.t.clones[c])) else s'.(fail := true, broken := s.broken + 1)
    case SubmitOriginal =>
      s.(t := s.t.(origQ := s.t.origQ[1..], landing := s.t.landing + {s.t.origQ[0]}))
    case Land(id, word) =>
      var w := s.t.held[id];
      s.(base := s.base[word := w.payload[word - w.sector * 64]])
    case Acknowledge(id) => s.(t := s.t.(held := s.t.held - {id}, landing := s.t.landing - {id}))
    case SnapshotRequest(sector, sectors) => s.(cowQ := s.cowQ + [Bio(0, false, sector, sectors, [])])
    case CowThread(outcome) =>
      Handle(s.(cowQ := DelayRead.Rest(s.cowQ)), s.cowQ[DelayRead.Picked(s.cowQ)], outcome)
    case Stray(word, value) => s.(base := s.base[word := value], untraced := s.untraced + {word / 512})
  }

  /** A run: the image the snapshot was set up on, then any steps. */
  datatype Run = Start(image: seq<Word>) | Then(run: Run, step: Step)
  {
    predicate Valid() {
      match this
      case Start(image) => |image| % 512 == 0
      case Then(run, _) => run.Valid()
    }

    function Final(): State
      requires Valid()
    {
      match this
      case Start(image) => Init(image)
      case Then(run, step) => Next(run.Final(), step)
    }

    /** No copy-on-write iteration lets a clone overtake an earlier queued one on
        a block that is not stored yet. */
    ghost predicate InOrder()
      requires Valid()
    {
      match this
      case Start(_) => true
      case Then(run, step) =>
        && run.InOrder()
        && (step.CowThread? && run.Final().cowQ != [] ==>
              !DelayRead.Overtakes(run.Final().cowQ, run.Final().store.Keys))
    }
  }

  // ------------------------------------------------------- write accounting

  lemma SubmitKeeps(t: Tracing)
    requires Inv(t) && t.readQ != []
    ensures Inv(Submit(t))
  {
    FrameKeeps(t, Submit(t));
  }

  lemma CaptureKeeps(t: Tracing, c: nat, block: nat, page: Page)
    requires Inv(t) && c in t.clones
    ensures Inv(Capture(t, c, block, page))
  {
    FrameKeeps(t, Capture(t, c, block, page));
  }

  lemma HandlingLeavesTracing(s: State, bio: Bio, outcome: Handling)
    ensures Handle(s, bio, outcome).t == s.t
  {
  }

  lemma TracingStep(s: State, step: Step)
    requires Inv(s.t)
    ensures Inv(Next(s, step).t)
  {
    if !Enabled(s, step) { return; }
    match step
    case BeginTrace(w) => BeginKeeps(s.t, w);
    case PassWrite(w) => ThroughKeeps(s.t, w);
    case IssueClone(id, pages) => IssueKeeps(s.t, id, pages);
    case AbortTrace(id) => DropHolderKeeps(s.t, id);
    case FinishTrace(id) => DropHolderKeeps(s.t, id);
    case CompleteClone(c, _) => CompleteKeeps(s.t, c);
    case SubmitClone => SubmitKeeps(s.t);
    case CaptureBlock(c, b) => CaptureKeeps(s.t, c, b, BlockAt(s.base, b));
    case SubmitOriginal => FrameKeeps(s.t, Next(s, step).t);
    case Acknowledge(_) => FrameKeeps(s.t, Next(s, step).t);
    case CowThread(outcome) =>
      HandlingLeavesTracing(s.(cowQ := DelayRead.Rest(s.cowQ)), s.cowQ[DelayRead.Picked(s.cowQ)], outcome);
    case _ =>
  }

  lemma {:induction false} TracingRun(run: Run)
    requires run.Valid()
    ensures Inv(run.Final().t)
  {
    match run
    case Start(_) =>
    case Then(prev, step) =>
      TracingRun(prev);
      TracingStep(prev.Final(), step);
  }

  /** Exactly-once release, in every run, failures included: while a write is
      live its count is its holder's reference plus its outstanding clones, and
      it has not been let go; once neither is left it has been let go, exactly
      once, in one of the two ways. */
  lemma EveryWriteIsReleasedOnce(run: Run, id: nat)
    requires run.Valid() && id < run.Final().t.writes
    ensures var t := run.Final().t;
            && (id in t.traces ==>
                  && t.traces[id].refs == HolderRefs(t.traces[id]) + |ClonesOf(t, id)| > 0
                  && Occurrences(t.released, id) == 0 && id !in t.direct)
            && (id !in t.traces ==>
                  && ClonesOf(t, id) == {}
                  && Occurrences(t.released, id) + (if id in t.direct then 1 else 0) == 1)
  {
    TracingRun(run);
    var t := run.Final().t;
    DistinctOccurrences(t.released, id);
    if id in t.traces {
      assert OkTrace(t, id, 0);
    } else {
      NoClonesYet(t, id);
    }
  }
}
