/** What becomes of snapshot reads: every accepted request is answered over its whole
    range, or still waits, or was ended with an error on a failed device. */
module ReadLedger {
  import opened Blocks
  import opened Protocol
  import opened Isolation
  import opened ReadWindow
  import DelayRead

  /** First sector and number of sectors. */
  type Range = (nat, nat)

  /** The reads of a queue. */
  function Reads(q: seq<Bio>): multiset<Range> {
    if q == [] then multiset{} else Reading(q[0]) + Reads(q[1..])
  }

  function Reading(bio: Bio): multiset<Range> {
    if bio.write then multiset{} else multiset{(bio.sector, bio.sectors)}
  }

  /** The ranges that were answered. */
  function Answered(answers: seq<Answer>): multiset<Range> {
    if answers == [] then multiset{}
    else
      var a := answers[|answers| - 1];
      Answered(answers[..|answers| - 1]) + multiset{(a.sector, a.sectors)}
  }

  /** Every answer has 64 words for each sector it is for. */
  predicate Whole(answers: seq<Answer>) {
    forall k :: 0 <= k < |answers| ==> |answers[k].data| == answers[k].sectors * 64
  }

  lemma {:induction false} ReadsOfBoth(a: seq<Bio>, b: seq<Bio>)
    ensures Reads(a + b) == Reads(a) + Reads(b)
  {
    if a == [] {
      assert a + b == b;
    } else {
      assert (a + b)[1..] == a[1..] + b && (a + b)[0] == a[0];
      ReadsOfBoth(a[1..], b);
    }
  }

  lemma OneRead(bio: Bio)
    ensures Reads([bio]) == Reading(bio)
  {
    assert [bio][1..] == [];
  }

  /** A dequeue takes exactly the range it returns. */
  lemma DequeueTakes(q: seq<Bio>)
    requires q != []
    ensures Reads(q) == Reading(q[DelayRead.Picked(q)]) + Reads(DelayRead.Rest(q))
  {
    var k := DelayRead.Picked(q);
    if k > 0 {
      var a, b := q[1..k], q[k + 1..];
      DelayRead.Cut(q, k);
      ThreeParts([q[0]], a, [q[k]], b);
      ReadsOfBoth(a + [q[0]], b);
      ReadsOfBoth(a, [q[0]]);
      OneRead(q[0]);
      OneRead(q[k]);
    }
  }

  lemma ThreeParts(x: seq<Bio>, a: seq<Bio>, y: seq<Bio>, b: seq<Bio>)
    ensures Reads(x + a + y + b) == Reads(x) + Reads(a) + Reads(y) + Reads(b)
  {
    ReadsOfBoth(x + a + y, b);
    ReadsOfBoth(x + a, y);
    ReadsOfBoth(x, a);
  }

  lemma ReadAdded(q: seq<Bio>, bio: Bio)
    ensures Reads(q + [bio]) == Reads(q) + Reading(bio)
  {
    ReadsOfBoth(q, [bio]);
    OneRead(bio);
  }

  lemma AnswerCounted(answers: seq<Answer>, a: Answer)
    requires Whole(answers) && |a.data| == a.sectors * 64
    ensures Answered(answers + [a]) == Answered(answers) + multiset{(a.sector, a.sectors)}
    ensures Whole(answers + [a])
  {
    assert (answers + [a])[..|answers|] == answers;
  }

  // ------------------------------------------------------------------- histories

  /** What a step asks for. */
  function Asks(s: State, step: Step): multiset<Range> {
    if step.SnapshotRequest? && Enabled(s, step) then multiset{(step.sector, step.sectors)} else multiset{}
  }

  /** What a step ends with an error: the thread's turn with a read of a failed
      device, and a read that cannot be handled. */
  function Errs(s: State, step: Step): multiset<Range> {
    if step.CowThread? && s.cowQ != [] && (s.fail || step.outcome.Failed?)
    then Reading(s.cowQ[DelayRead.Picked(s.cowQ)])
    else multiset{}
  }

  /** What was asked for is answered, or queued, or in hand, or ended with an error. */
  predicate Sums(asked: multiset<Range>, answered: multiset<Range>, queued: multiset<Range>, inHand: multiset<Range>,
                 erred: multiset<Range>)
  {
    asked == answered + queued + inHand + erred
  }

  lemma Requests(asked: multiset<Range>, a: multiset<Range>, q: multiset<Range>, h: multiset<Range>,
                 e: multiset<Range>, r: multiset<Range>)
    requires Sums(asked, a, q, h, e)
    ensures Sums(asked + r, a, q + r, h, e)
  {
  }

  /** A range leaves the queue one way or another. */
  lemma LeavesQueue(asked: multiset<Range>, a: multiset<Range>, q: multiset<Range>, h: multiset<Range>,
                    e: multiset<Range>, r: multiset<Range>)
    requires Sums(asked, a, r + q, h, e)
    ensures Sums(asked, a + r, q, h, e) && Sums(asked, a, q, h + r, e) && Sums(asked, a, q, h, e + r)
  {
  }

  lemma LeavesHand(asked: multiset<Range>, a: multiset<Range>, q: multiset<Range>, h: multiset<Range>,
                   e: multiset<Range>)
    requires Sums(asked, a, q, h, e)
    ensures Sums(asked, a + h, q, multiset{}, e) && Sums(asked, a, q, multiset{}, e + h)
  {
  }

  lemma Nothing(m: multiset<Range>)
    ensures m + multiset{} == m && multiset{} + m == m
  {
  }

  predicate Balanced(s: State, inHand: multiset<Range>, asked: multiset<Range>, erred: multiset<Range>) {
    && Sums(asked, Answered(s.answers), Reads(s.cowQ), inHand, erred)
    && Whole(s.answers) && (!s.fail ==> erred == multiset{})
  }

  lemma RequestBalances(s: State, step: Step, h: multiset<Range>, asked: multiset<Range>, erred: multiset<Range>)
    requires step.SnapshotRequest? && Enabled(s, step) && Balanced(s, h, asked, erred)
    ensures Balanced(Next(s, step), h, asked + Asks(s, step), erred)
  {
    ReadAdded(s.cowQ, Bio(0, false, step.sector, step.sectors, []));
    Requests(asked, Answered(s.answers), Reads(s.cowQ), h, erred, Asks(s, step));
  }

  lemma CloneBalances(s: State, c: nat, ok: bool, h: multiset<Range>, asked: multiset<Range>, erred: multiset<Range>)
    requires Enabled(s, CompleteClone(c, ok)) && Balanced(s, h, asked, erred)
    ensures Balanced(Next(s, CompleteClone(c, ok)), h, asked, erred)
  {
    if ok {
      ReadAdded(s.cowQ, Captured(c, s.t.clones[c]));
      Nothing(Reads(s.cowQ));
    }
  }

  /** What the thread's turn does to the answers. */
  lemma TurnAnswers(s: State, outcome: Handling)
    requires Shape(s) && s.cowQ != []
    ensures var r, s' := s.cowQ[DelayRead.Picked(s.cowQ)], Next(s, CowThread(outcome));
            && s'.cowQ == DelayRead.Rest(s.cowQ)
            && (!s'.fail ==> !s.fail && (!r.write ==> outcome.Handled?))
            && if r.write || s.fail || outcome.Failed? then s'.answers == s.answers
               else
                 && |s'.answers| == |s.answers| + 1 && s'.answers[..|s.answers|] == s.answers
                 && s'.answers[|s.answers|].sector == r.sector && s'.answers[|s.answers|].sectors == r.sectors
                 && |s'.answers[|s.answers|].data| == r.sectors * 64
  {
    if !s.cowQ[DelayRead.Picked(s.cowQ)].write { PickedReadFits(s); }
  }

  lemma TurnBalances(s: State, outcome: Handling, h: multiset<Range>, asked: multiset<Range>, erred: multiset<Range>)
    requires Shape(s) && s.cowQ != [] && Balanced(s, h, asked, erred)
    ensures Balanced(Next(s, CowThread(outcome)), h, asked, erred + Errs(s, CowThread(outcome)))
  {
    TurnAnswers(s, outcome);
    TurnSums(s, Next(s, CowThread(outcome)), outcome, h, asked, erred);
  }

  lemma TurnSums(s: State, s': State, outcome: Handling, h: multiset<Range>, asked: multiset<Range>,
                 erred: multiset<Range>)
    requires s.cowQ != [] && s'.cowQ == DelayRead.Rest(s.cowQ) && Balanced(s, h, asked, erred)
    requires var r := s.cowQ[DelayRead.Picked(s.cowQ)];
             && (!s'.fail ==> !s.fail && (!r.write ==> outcome.Handled?))
             && if r.write || s.fail || outcome.Failed? then s'.answers == s.answers
                else
                  && |s'.answers| == |s.answers| + 1 && s'.answers[..|s.answers|] == s.answers
                  && s'.answers[|s.answers|].sector == r.sector && s'.answers[|s.answers|].sectors == r.sectors
                  && |s'.answers[|s.answers|].data| == r.sectors * 64
    ensures Balanced(s', h, asked, erred + Errs(s, CowThread(outcome)))
  {
    var r := s.cowQ[DelayRead.Picked(s.cowQ)];
    var q' := Reads(s'.cowQ);
    DequeueTakes(s.cowQ);
    LeavesQueue(asked, Answered(s.answers), q', h, erred, Reading(r));
    if r.write {
      TurnedWrite(s, s', r, q', h, asked, erred);
    } else if !s.fail && outcome.Handled? {
      TurnedRead(s.answers, s'.answers, r);
      Nothing(erred);
    }
  }

  lemma TurnedWrite(s: State, s': State, r: Bio, q: multiset<Range>, h: multiset<Range>, asked: multiset<Range>,
                    erred: multiset<Range>)
    requires r.write && Sums(asked, Answered(s.answers), q, h, erred + Reading(r))
    ensures Sums(asked, Answered(s.answers), q, h, erred) && erred + Reading(r) == erred
    ensures erred + multiset{} == erred
  {
  }

  lemma TurnedRead(answers: seq<Answer>, answers': seq<Answer>, r: Bio)
    requires Whole(answers) && !r.write && |answers'| == |answers| + 1 && answers'[..|answers|] == answers
    requires var a := answers'[|answers|];
             a.sector == r.sector && a.sectors == r.sectors && |a.data| == r.sectors * 64
    ensures Answered(answers') == Answered(answers) + Reading(r) && Whole(answers')
  {
    assert answers' == answers + [answers'[|answers|]];
    AnswerCounted(answers, answers'[|answers|]);
  }

  lemma OthersLeaveReads(s: State, step: Step)
    requires !step.SnapshotRequest? && !step.CompleteClone? && !step.CowThread?
    ensures Next(s, step).cowQ == s.cowQ && Next(s, step).answers == s.answers && (s.fail ==> Next(s, step).fail)
  {
  }

  lemma OtherBalances(s: State, step: Step, h: multiset<Range>, asked: multiset<Range>, erred: multiset<Range>)
    requires (!step.SnapshotRequest? && !step.CompleteClone? && !step.CowThread?) || !Enabled(s, step)
    requires Balanced(s, h, asked, erred)
    ensures Balanced(Next(s, step), h, asked, erred)
    ensures Asks(s, step) == multiset{} && Errs(s, step) == multiset{}
  {
    if Enabled(s, step) { OthersLeaveReads(s, step); }
  }

  lemma StepBalances(s: State, step: Step, h: multiset<Range>, asked: multiset<Range>, erred: multiset<Range>)
    requires Shape(s) && Balanced(s, h, asked, erred)
    ensures Balanced(Next(s, step), h, asked + Asks(s, step), erred + Errs(s, step))
  {
    Nothing(asked);
    Nothing(erred);
    if !Enabled(s, step) {
      OtherBalances(s, step, h, asked, erred);
    } else if step.SnapshotRequest? {
      RequestBalances(s, step, h, asked, erred);
    } else if step.CompleteClone? {
      CloneBalances(s, step.clone, step.ok, h, asked, erred);
    } else if step.CowThread? {
      TurnBalances(s, step.outcome, h, asked, erred);
    } else {
      OtherBalances(s, step, h, asked, erred);
    }
  }

  // ------------------------------------------------------------------------ runs

  /** History: the ranges asked for. */
  function Asked(run: Run): multiset<Range>
    requires run.Valid()
  {
    match run
    case Start(_) => multiset{}
    case Then(prev, step) => Asked(prev) + Asks(prev.Final(), step)
  }

  /** History: the ranges whose reads were ended with an error. */
  function Erred(run: Run): multiset<Range>
    requires run.Valid()
  {
    match run
    case Start(_) => multiset{}
    case Then(prev, step) => Erred(prev) + Errs(prev.Final(), step)
  }

  lemma {:induction false} RunBalances(run: Run)
    requires run.Valid()
    ensures Balanced(run.Final(), multiset{}, Asked(run), Erred(run))
  {
    match run
    case Start(_) =>
    case Then(prev, step) =>
      RunBalances(prev);
      RunGood(prev);
      StepBalances(prev.Final(), step, multiset{}, Asked(prev), Erred(prev));
  }

  /** In every run each range asked for was answered as a whole, or its read waits, or
      it was ended with an error, and each as often as it was asked for; reads are
      ended with an error only once the device has failed. */
  lemma EveryReadAccounted(run: Run)
    requires run.Valid()
    ensures var s := run.Final();
            && Asked(run) == Answered(s.answers) + Reads(s.cowQ) + Erred(run)
            && (forall k :: 0 <= k < |s.answers| ==> |s.answers[k].data| == s.answers[k].sectors * 64)
            && (!s.fail ==> Erred(run) == multiset{})
  {
    RunBalances(run);
  }

  /** Without a failure, once the queue is empty all that was asked for is answered. */
  lemma AllReadsAnswered(run: Run)
    requires run.Valid() && !run.Final().fail && run.Final().cowQ == []
    ensures Asked(run) == Answered(run.Final().answers) && Whole(run.Final().answers)
  {
    RunBalances(run);
  }

  // -------------------------------------------------------------------- passages

  function InHand(m: Window): multiset<Range> {
    match m.hand
    case None => multiset{}
    case Some(h) => multiset{(h.bio.sector, h.bio.sectors)}
  }

  ghost function MoveAsks(m: Window, move: Move): multiset<Range> {
    if move.Inner? && Allowed(m, move) then Asks(m.s, move.step) else multiset{}
  }

  ghost function MoveErrs(m: Window, move: Move): multiset<Range> {
    if !Allowed(m, move) then multiset{}
    else match move
      case Inner(step) => Errs(m.s, step)
      case Abandon => InHand(m)
      case _ => multiset{}
  }

  ghost function AskedIn(p: Passage): multiset<Range>
    requires p.Valid()
  {
    match p
    case Open(_) => multiset{}
    case Moved(before, move) => AskedIn(before) + MoveAsks(before.Final(), move)
  }

  ghost function ErredIn(p: Passage): multiset<Range>
    requires p.Valid()
  {
    match p
    case Open(_) => multiset{}
    case Moved(before, move) => ErredIn(before) + MoveErrs(before.Final(), move)
  }

  lemma GiveBalances(m: Window, asked: multiset<Range>, erred: multiset<Range>)
    requires Allowed(m, Give) && Balanced(m.s, InHand(m), asked, erred)
    ensures Balanced(After(m, Give).s, InHand(After(m, Give)), asked, erred)
  {
    AnswerCounted(m.s.answers, Reply(m.s, m.hand.value));
    LeavesHand(asked, Answered(m.s.answers), Reads(m.s.cowQ), InHand(m), erred);
  }

  lemma TakeBalances(m: Window, asked: multiset<Range>, erred: multiset<Range>)
    requires Allowed(m, Take) && Balanced(m.s, InHand(m), asked, erred)
    ensures Balanced(After(m, Take).s, InHand(After(m, Take)), asked, erred)
  {
    var r, q := m.s.cowQ[DelayRead.Picked(m.s.cowQ)], DelayRead.Rest(m.s.cowQ);
    DequeueTakes(m.s.cowQ);
    LeavesQueue(asked, Answered(m.s.answers), Reads(q), multiset{}, erred, Reading(r));
    Nothing(Reading(r));
  }

  lemma MoveBalances(m: Window, move: Move, asked: multiset<Range>, erred: multiset<Range>)
    requires Shape(m.s) && Balanced(m.s, InHand(m), asked, erred)
    ensures Balanced(After(m, move).s, InHand(After(m, move)), asked + MoveAsks(m, move), erred + MoveErrs(m, move))
  {
    Nothing(asked);
    Nothing(erred);
    if !Allowed(m, move) { return; }
    match move
    case Inner(step) => StepBalances(m.s, step, InHand(m), asked, erred);
    case Take => TakeBalances(m, asked, erred);
    case Give => GiveBalances(m, asked, erred);
    case Abandon => LeavesHand(asked, Answered(m.s.answers), Reads(m.s.cowQ), InHand(m), erred);
    case Fetch(_, _) =>
  }

  lemma {:induction false} PassageBalances(p: Passage)
    requires p.Valid()
    ensures Good(p.Final().s) && Balanced(p.Final().s, InHand(p.Final()), AskedIn(p), ErredIn(p))
  {
    match p
    case Open(image) => RunGood(Run.Start(image));
    case Moved(before, move) =>
      PassageBalances(before);
      MoveGood(before.Final(), move);
      MoveBalances(before.Final(), move, AskedIn(before), ErredIn(before));
  }

  /** The same with reads taken apart: a read may also be in hand. */
  lemma EveryReadAccountedApart(p: Passage)
    requires p.Valid()
    ensures var m := p.Final();
            && AskedIn(p) == Answered(m.s.answers) + Reads(m.s.cowQ) + InHand(m) + ErredIn(p)
            && (forall k :: 0 <= k < |m.s.answers| ==> |m.s.answers[k].data| == m.s.answers[k].sectors * 64)
            && (!m.s.fail ==> ErredIn(p) == multiset{})
  {
    PassageBalances(p);
  }
}
