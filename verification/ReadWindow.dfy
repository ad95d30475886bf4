/** Snapshot reads taken apart: between looking up a read's blocks and reading them
    from the base device other actors go on. What the copy-on-write thread answers
    then, and when it is right. */
module ReadWindow {
  import opened Blocks
  import opened Protocol
  import opened Isolation
  import DelayRead

  /** A read taken off the queue: the device as it was then, and the words read. */
  datatype Hand = Hand(bio: Bio, atTake: seq<Word>, got: map<nat, Word>)

  datatype Window = Window(s: State, hand: Option<Hand>)

  datatype Move =
    | Inner(step: Step)           // anything but a snapshot read
    | Take                        // dequeue a read and look up its blocks
    | Fetch(from: nat, n: nat)    // the base device reads some words
    | Give                        // overlay stored pages, and answer
    | Abandon                     // an error ends the read and fails the device

  predicate InRead(bio: Bio, w: nat) {
    bio.sector * 64 <= w < (bio.sector + bio.sectors) * 64
  }

  /** The words that do not come from the store have all been read. */
  ghost predicate Fetched(s: State, h: Hand) {
    forall w: nat :: InRead(h.bio, w) ==> w / 512 in s.store || w in h.got
  }

  ghost predicate Allowed(m: Window, move: Move) {
    match move
    case Inner(step) =>
      step.CowThread? ==> m.hand.None? && (m.s.cowQ == [] || m.s.fail || m.s.cowQ[DelayRead.Picked(m.s.cowQ)].write)
    case Take =>
      && m.hand.None? && !m.s.fail && m.s.cowQ != []
      && !m.s.cowQ[DelayRead.Picked(m.s.cowQ)].write && Readable(m.s, m.s.cowQ[DelayRead.Picked(m.s.cowQ)])
    case Fetch(from, n) =>
      m.hand.Some? && from + n <= |m.s.base|
    case Give =>
      && m.hand.Some? && Fetched(m.s, m.hand.value)
      && forall b :: b in m.s.store ==> |m.s.store[b]| == 512
    case Abandon => m.hand.Some?
  }

  function GivenAt(s: State, h: Hand, w: nat): Word
    requires forall b :: b in s.store ==> |s.store[b]| == 512
  {
    if w / 512 in s.store then s.store[w / 512][w % 512] else if w in h.got then h.got[w] else 0
  }

  function Reply(s: State, h: Hand): (a: Answer)
    requires forall b :: b in s.store ==> |s.store[b]| == 512
    ensures a.sector == h.bio.sector && |a.data| == h.bio.sectors * 64
  {
    Answer(h.bio.sector, h.bio.sectors,
           seq<Word>(h.bio.sectors * 64, i requires 0 <= i < h.bio.sectors * 64 =>
             GivenAt(s, h, h.bio.sector * 64 + i)))
  }

  /** A move that is not allowed changes nothing. */
  ghost function After(m: Window, move: Move): Window {
    if !Allowed(m, move) then m else
    match move
    case Inner(step) => m.(s := Next(m.s, step))
    case Take =>
      Window(m.s.(cowQ := DelayRead.Rest(m.s.cowQ)),
             Some(Hand(m.s.cowQ[DelayRead.Picked(m.s.cowQ)], m.s.base, map[])))
    case Fetch(from, n) =>
      var h := m.hand.value;
      m.(hand := Some(h.(got := (map w | from <= w < from + n :: m.s.base[w]) + h.got)))
    case Give => Window(m.s.(answers := m.s.answers + [Reply(m.s, m.hand.value)]), None)
    case Abandon => Window(m.s.(fail := true), None)
  }

  datatype Passage = Open(image: seq<Word>) | Moved(before: Passage, move: Move)
  {
    predicate Valid() {
      match this
      case Open(image) => |image| % 512 == 0
      case Moved(before, _) => before.Valid()
    }

    ghost function Final(): Window
      requires Valid()
    {
      match this
      case Open(image) => Window(Init(image), None)
      case Moved(before, move) => After(before.Final(), move)
    }

    ghost predicate InOrder()
      requires Valid()
    {
      match this
      case Open(_) => true
      case Moved(before, move) =>
        && before.InOrder()
        && (move.Inner? && move.step.CowThread? && before.Final().s.cowQ != [] ==>
              !DelayRead.Overtakes(before.Final().s.cowQ, before.Final().s.store.Keys))
    }

    /** No answered read had a word of an unstored, traced block overwritten with
        other data between its lookup and the moment it was read. */
    ghost predicate Undisturbed()
      requires Valid()
    {
      match this
      case Open(_) => true
      case Moved(before, move) =>
        before.Undisturbed() && (move.Give? && Allowed(before.Final(), Give) ==>
                                   Quiet(before.Final().s, before.Final().hand.value))
    }
  }

  ghost predicate Quiet(s: State, h: Hand) {
    forall w: nat :: InRead(h.bio, w) && w / 512 !in s.store && w / 512 !in s.untraced && w < |h.atTake| ==>
      w in h.got && h.got[w] == h.atTake[w]
  }

  // ---------------------------------------------------------------- invariants

  /** What was true of the blocks of the read when it was taken. */
  ghost predicate HandOk(s: State, h: Hand)
    requires Shape(s)
  {
    && (h.bio.sector + h.bio.sectors) * 64 <= |s.snap| == |h.atTake|
    && forall w: nat :: InRead(h.bio, w) && w / 512 !in s.untraced ==> WordOk(s, h, w)
  }

  predicate WordOk(s: State, h: Hand, w: nat)
    requires Shape(s)
  {
    w < |s.snap| && w < |h.atTake| &&
    (if w / 512 in s.store then s.store[w / 512][w % 512] else h.atTake[w]) == s.snap[w]
  }

  ghost predicate WindowOk(m: Window) {
    && Good(m.s) && (!m.s.fail ==> FirstsKept(m.s))
    && (m.hand.Some? ==> HandOk(m.s, m.hand.value))
  }

  lemma AnswersDoNotMatter(s: State, answers: seq<Answer>)
    requires Good(s)
    ensures Good(s.(answers := answers)) && (!s.fail ==> FirstsKept(s) == FirstsKept(s.(answers := answers)))
  {
  }

  /** Taking a read is a turn of the copy-on-write thread without the answer. */
  lemma TakeIsTurn(s: State)
    requires Allowed(Window(s, None), Take)
    ensures var t, s' := s.(cowQ := DelayRead.Rest(s.cowQ)), Next(s, CowThread(Handled));
            s' == t.(answers := s'.answers) && t == s'.(answers := s.answers)
  {
  }

  lemma TakenTurn(s: State)
    requires Good(s) && Allowed(Window(s, None), Take)
    ensures Good(s.(cowQ := DelayRead.Rest(s.cowQ))) && Good(Next(s, CowThread(Handled)))
  {
    TakeIsTurn(s);
    StepGood(s, CowThread(Handled));
    AnswersDoNotMatter(Next(s, CowThread(Handled)), s.answers);
  }

  lemma Taken(s: State)
    requires Good(s) && !s.fail && FirstsKept(s) && Allowed(Window(s, None), Take)
    ensures WindowOk(After(Window(s, None), Take))
  {
    var step := CowThread(Handled);
    TakeIsTurn(s);
    TakenTurn(s);
    StepTracked(s, step);
    AnswersDoNotMatter(Next(s, step), s.answers);
    TakenHand(s, s.(cowQ := DelayRead.Rest(s.cowQ)));
  }

  /** In any order, what does not depend on order holds on. */
  lemma MoveGood(m: Window, move: Move)
    requires Good(m.s)
    ensures Good(After(m, move).s)
    ensures After(m, move).s.snap == m.s.snap && After(m, move).s.blocks == m.s.blocks
  {
    if !Allowed(m, move) { return; }
    match move
    case Inner(step) =>
      StepGood(m.s, step);
      SnapshotStays(m.s, step);
    case Take => TakenTurn(m.s);
    case Give => AnswersDoNotMatter(m.s, m.s.answers + [Reply(m.s, m.hand.value)]);
    case _ =>
  }

  lemma SnapshotStays(s: State, step: Step)
    ensures Next(s, step).snap == s.snap && Next(s, step).blocks == s.blocks
  {
  }

  lemma TakenHand(s: State, t: State)
    requires Shape(s) && Alive(s) && FirstsKept(s) && s.cowQ != [] && !s.cowQ[DelayRead.Picked(s.cowQ)].write
    requires Shape(t) && t == s.(cowQ := t.cowQ)
    ensures HandOk(t, Hand(s.cowQ[DelayRead.Picked(s.cowQ)], s.base, map[]))
  {
    PickedReadFits(s);
    var h := Hand(s.cowQ[DelayRead.Picked(s.cowQ)], s.base, map[]);
    forall w: nat | InRead(h.bio, w) && w / 512 !in t.untraced
      ensures WordOk(t, h, w)
    {
      AnswerRight(s, w);
    }
  }

  /** Other actors leave the store alone. */
  lemma StoreRests(s: State, step: Step)
    requires !step.CowThread?
    ensures Next(s, step).store == s.store && Next(s, step).snap == s.snap && s.untraced <= Next(s, step).untraced
  {
  }

  lemma HandStays(s: State, s': State, h: Hand, h': Hand)
    requires Shape(s) && Shape(s') && HandOk(s, h) && h'.bio == h.bio && h'.atTake == h.atTake
    requires s'.store == s.store && s'.snap == s.snap && s.untraced <= s'.untraced
    ensures HandOk(s', h')
  {
    forall w: nat | InRead(h'.bio, w) && w / 512 !in s'.untraced
      ensures WordOk(s', h', w)
    {
      assert WordOk(s, h, w);
    }
  }

  lemma InnerKeeps(m: Window, step: Step)
    requires WindowOk(m) && Allowed(m, Inner(step))
    requires step.CowThread? && m.s.cowQ != [] ==> !DelayRead.Overtakes(m.s.cowQ, m.s.store.Keys)
    ensures WindowOk(After(m, Inner(step)))
  {
    StepGood(m.s, step);
    if m.s.fail {
      FailureSticks(m.s, step);
    } else if !Next(m.s, step).fail {
      StepTracked(m.s, step);
    }
    if m.hand.Some? {
      StoreRests(m.s, step);
      HandStays(m.s, Next(m.s, step), m.hand.value, m.hand.value);
    }
  }

  lemma MoveKeeps(m: Window, move: Move)
    requires WindowOk(m)
    requires move.Inner? && move.step.CowThread? && m.s.cowQ != [] ==>
               !DelayRead.Overtakes(m.s.cowQ, m.s.store.Keys)
    ensures WindowOk(After(m, move))
  {
    if !Allowed(m, move) { return; }
    match move
    case Inner(step) => InnerKeeps(m, step);
    case Take => Taken(m.s);
    case Fetch(_, _) => HandStays(m.s, m.s, m.hand.value, After(m, move).hand.value);
    case Give => AnswersDoNotMatter(m.s, m.s.answers + [Reply(m.s, m.hand.value)]);
    case Abandon =>
  }

  lemma {:induction false} PassageOk(p: Passage)
    requires p.Valid() && p.InOrder()
    ensures WindowOk(p.Final())
  {
    match p
    case Open(image) => RunGood(Run.Start(image));
    case Moved(before, move) =>
      PassageOk(before);
      MoveKeeps(before.Final(), move);
  }

  // ------------------------------------------------------------------ theorems

  ghost predicate AllGiven(s: State, h: Hand)
    requires Shape(s)
  {
    forall i :: 0 <= i < h.bio.sectors * 64 ==> SameWord(s, Reply(s, h), i)
  }

  lemma RightIsQuiet(s: State, h: Hand)
    requires Shape(s) && HandOk(s, h) && Fetched(s, h) && AllGiven(s, h)
    ensures Quiet(s, h)
  {
    forall w: nat | InRead(h.bio, w) && w / 512 !in s.store && w / 512 !in s.untraced && w < |h.atTake|
      ensures w in h.got && h.got[w] == h.atTake[w]
    {
      GivenWord(s, h, w - h.bio.sector * 64);
    }
  }

  lemma QuietIsRight(s: State, h: Hand)
    requires Shape(s) && HandOk(s, h) && Fetched(s, h) && Quiet(s, h)
    ensures AllGiven(s, h)
  {
    forall i | 0 <= i < h.bio.sectors * 64
      ensures SameWord(s, Reply(s, h), i)
    {
      GivenWord(s, h, i);
      assert InRead(h.bio, h.bio.sector * 64 + i);
    }
  }

  /** Exactly when an answer is right: in any passage without overtaking, what is
      given for a read equals the snapshot on all traced blocks if and only if no
      word of a block that is not stored was overwritten with other data between
      the lookup and its reading. */
  lemma GivenExactly(p: Passage)
    requires p.Valid() && p.InOrder() && Allowed(p.Final(), Give)
    ensures Shape(p.Final().s)
    ensures AllGiven(p.Final().s, p.Final().hand.value) <==> Quiet(p.Final().s, p.Final().hand.value)
  {
    PassageOk(p);
    var s, h := p.Final().s, p.Final().hand.value;
    if AllGiven(s, h) { RightIsQuiet(s, h); }
    if Quiet(s, h) { QuietIsRight(s, h); }
  }

  lemma GivenWord(s: State, h: Hand, i: nat)
    requires Shape(s) && HandOk(s, h) && Fetched(s, h) && i < h.bio.sectors * 64
    ensures var w := h.bio.sector * 64 + i;
            && w < |h.atTake|
            && (SameWord(s, Reply(s, h), i) <==>
                w / 512 in s.untraced || w / 512 in s.store || (w in h.got && h.got[w] == h.atTake[w]))
  {
    var w := h.bio.sector * 64 + i;
    assert InRead(h.bio, w);
    if w / 512 !in s.untraced { assert WordOk(s, h, w); }
  }

  lemma MoveAnswers(m: Window, move: Move)
    requires WindowOk(m) && AnswersRight(m.s)
    requires move.Inner? && move.step.CowThread? && m.s.cowQ != [] ==>
               !DelayRead.Overtakes(m.s.cowQ, m.s.store.Keys)
    requires move.Give? && Allowed(m, Give) ==> Quiet(m.s, m.hand.value)
    ensures AnswersRight(After(m, move).s)
  {
    if !Allowed(m, move) { return; }
    match move
    case Inner(step) => StepAnswers(m.s, step);
    case Give =>
      var a := Reply(m.s, m.hand.value);
      forall i | 0 <= i < |a.data|
        ensures SameWord(m.s, a, i)
      {
        GivenWord(m.s, m.hand.value, i);
      }
      AnswerAdded(m.s, After(m, move).s, a);
    case _ => AnswersStay(m.s, After(m, move).s);
  }

  /** Snapshot isolation with reads taken apart. */
  lemma {:induction false} UndisturbedIsolation(p: Passage)
    requires p.Valid() && p.InOrder() && p.Undisturbed()
    ensures AnswersRight(p.Final().s)
  {
    match p
    case Open(_) =>
    case Moved(before, move) =>
      UndisturbedIsolation(before);
      PassageOk(before);
      MoveAnswers(before.Final(), move);
  }

  // ------------------------------------------------------------- quiet by events

  /** The words still to be read are as they were, and those that were read, too. */
  ghost predicate Still(s: State, h: Hand) {
    forall w: nat :: InRead(h.bio, w) && w / 512 !in s.store && w / 512 !in s.untraced && w < |h.atTake| ==>
      StillWord(s, h, w)
  }

  predicate StillWord(s: State, h: Hand, w: nat)
    requires w < |h.atTake|
  {
    if w in h.got then h.got[w] == h.atTake[w] else w < |s.base| && s.base[w] == h.atTake[w]
  }

  /** A released write lands on a word of the held read that is yet to be read and
      does not come from the store. */
  predicate Disturbs(m: Window, move: Move) {
    && move.Inner? && move.step.Land? && Enabled(m.s, move.step) && m.hand.Some?
    && InRead(m.hand.value.bio, move.step.word)
    && move.step.word / 512 !in m.s.store && move.step.word !in m.hand.value.got
  }

  lemma BaseAfter(s: State, step: Step, w: nat)
    requires w < |s.base| && !step.CowThread?
    requires w / 512 !in Next(s, step).untraced && !(step.Land? && step.word == w && Enabled(s, step))
    ensures w < |Next(s, step).base| && Next(s, step).base[w] == s.base[w] && w / 512 !in s.untraced
  {
  }

  lemma InnerStill(m: Window, step: Step)
    requires m.hand.Some? && Still(m.s, m.hand.value) && Allowed(m, Inner(step)) && !Disturbs(m, Inner(step))
    ensures Still(Next(m.s, step), m.hand.value)
  {
    var s', h := Next(m.s, step), m.hand.value;
    StoreRests(m.s, step);
    forall w: nat | InRead(h.bio, w) && w / 512 !in s'.store && w / 512 !in s'.untraced && w < |h.atTake|
      ensures StillWord(s', h, w)
    {
      assert StillWord(m.s, h, w);
      if w !in h.got { BaseAfter(m.s, step, w); }
    }
  }

  lemma MoveStill(m: Window, move: Move)
    requires m.hand.Some? ==> Still(m.s, m.hand.value)
    requires !Disturbs(m, move)
    ensures After(m, move).hand.Some? ==> Still(After(m, move).s, After(m, move).hand.value)
  {
    if !Allowed(m, move) { return; }
    match move
    case Inner(step) => if m.hand.Some? { InnerStill(m, step); }
    case Fetch(_, _) =>
      var h, h' := m.hand.value, After(m, move).hand.value;
      forall w: nat | InRead(h'.bio, w) && w / 512 !in m.s.store && w / 512 !in m.s.untraced && w < |h'.atTake|
        ensures StillWord(m.s, h', w)
      {
        assert StillWord(m.s, h, w);
      }
    case _ =>
  }

  /** If no write lands on such a word, the read is not disturbed. */
  lemma StillIsQuiet(m: Window)
    requires Allowed(m, Give) && Still(m.s, m.hand.value)
    ensures Quiet(m.s, m.hand.value)
  {
    var s, h := m.s, m.hand.value;
    forall w: nat | InRead(h.bio, w) && w / 512 !in s.store && w / 512 !in s.untraced && w < |h.atTake|
      ensures w in h.got && h.got[w] == h.atTake[w]
    {
      assert StillWord(s, h, w);
    }
  }

  /** No released write lands in a read's window. */
  ghost predicate NoLandings(p: Passage)
    requires p.Valid()
  {
    p.Moved? ==> NoLandings(p.before) && !Disturbs(p.before.Final(), p.move)
  }

  lemma {:induction false} NoLandingsStill(p: Passage)
    requires p.Valid() && NoLandings(p)
    ensures p.Final().hand.Some? ==> Still(p.Final().s, p.Final().hand.value)
    ensures p.Undisturbed()
  {
    if p.Moved? {
      NoLandingsStill(p.before);
      MoveStill(p.before.Final(), p.move);
      if p.move.Give? && Allowed(p.before.Final(), Give) { StillIsQuiet(p.before.Final()); }
    }
  }

  /** Snapshot isolation, in terms of events: no dequeue overtakes, and no released
      write lands on a word of a held read before it is read. */
  lemma NoLandingsIsolation(p: Passage)
    requires p.Valid() && p.InOrder() && NoLandings(p)
    ensures AnswersRight(p.Final().s)
  {
    NoLandingsStill(p);
    UndisturbedIsolation(p);
  }
}
