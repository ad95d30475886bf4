/** Tearing a snapshot down waits until as many read clones have been received as
    were submitted: when that wait can end, and when it never does. */
module Teardown {
  import opened Blocks
  import opened Tracker
  import opened Protocol
  import opened Isolation

  predicate WaitOver(s: State) {
    s.submitted == s.received
  }

  /** The run goes on from another one. */
  predicate GoesOn(later: Run, run: Run) {
    later == run || (later.Then? && GoesOn(later.run, run))
  }

  lemma {:induction false} StillValid(later: Run, run: Run)
    requires run.Valid() && GoesOn(later, run)
    ensures later.Valid()
  {
    if later != run { StillValid(later.run, run); }
  }

  lemma {:induction false} GoesOnFurther(last: Run, later: Run, run: Run)
    requires GoesOn(last, later) && GoesOn(later, run)
    ensures GoesOn(last, run)
  {
    if last != later { GoesOnFurther(last.run, later, run); }
  }

  /** The counters agree exactly when no clone is outstanding and none failed. */
  lemma WaitOverExactly(run: Run)
    requires run.Valid()
    ensures var s := run.Final(); WaitOver(s) <==> s.t.clones == map[] && s.broken == 0
  {
    RunGood(run);
  }

  lemma StepBreaks(s: State, step: Step)
    ensures Next(s, step).broken >= s.broken
  {
  }

  lemma {:induction false} BrokenStays(later: Run, run: Run)
    requires run.Valid() && GoesOn(later, run) && later.Valid()
    ensures later.Final().broken >= run.Final().broken
  {
    if later != run {
      BrokenStays(later.run, run);
      StepBreaks(later.run.Final(), later.step);
    }
  }

  // ------------------------------------------------------- bringing it to an end

  /** A clone that was not submitted waits to be. */
  predicate Waiting(t: Tracing) {
    forall c :: c in t.clones && !t.clones[c].sent ==> c in t.readQ
  }

  lemma PutKeepsClones(t: Tracing, id: nat)
    requires id in t.traces
    ensures Put(t, id).clones == t.clones && Put(t, id).readQ == t.readQ
  {
  }

  lemma WaitingStep(s: State, step: Step)
    requires Waiting(s.t)
    ensures Waiting(Next(s, step).t)
  {
    if !Enabled(s, step) { return; }
    match step
    case SubmitClone => WaitingSubmit(s.t);
    case CompleteClone(c, ok) => PutKeepsClones(RemoveClone(s.t, c), s.t.clones[c].owner);
    case CowThread(outcome) => assert Next(s, step).t == s.t;
    case _ =>
  }

  lemma WaitingSubmit(t: Tracing)
    requires Waiting(t) && t.readQ != []
    ensures Waiting(Submit(t))
  {
    assert t.readQ == [t.readQ[0]] + t.readQ[1..];
  }

  lemma {:induction false} WaitingRun(run: Run)
    requires run.Valid()
    ensures Waiting(run.Final().t)
  {
    if run.Then? {
      WaitingRun(run.run);
      WaitingStep(run.run.Final(), run.step);
    }
  }

  lemma {:induction false} SendAll(run: Run) returns (later: Run)
    requires run.Valid()
    ensures GoesOn(later, run) && later.Valid() && later.Final().t.readQ == []
    ensures later.Final().t.clones.Keys == run.Final().t.clones.Keys && later.Final().broken == run.Final().broken
    decreases |run.Final().t.readQ|
  {
    later := run;
    if run.Final().t.readQ != [] {
      var next := Then(run, SubmitClone);
      later := SendAll(next);
      assert GoesOn(next, run);
      GoesOnFurther(later, next, run);
    }
  }

  /** The device reads a clone's blocks from `from` on. */
  lemma {:induction false} ReadRest(run: Run, c: nat, from: nat) returns (later: Run)
    requires run.Valid() && c in run.Final().t.clones
    requires var s, clone := run.Final(), run.Final().t.clones[c];
             && clone.sent && clone.first <= from <= clone.end && clone.end * 512 <= |s.base|
             && clone.first < clone.end && forall b :: clone.first <= b < from ==> b in clone.got
    ensures GoesOn(later, run) && later.Valid() && c in later.Final().t.clones
    ensures later.Final().t.clones.Keys == run.Final().t.clones.Keys && later.Final().broken == run.Final().broken
    ensures later.Final().t.clones[c].sent && FullyRead(later.Final().t.clones[c])
    decreases run.Final().t.clones[c].end - from
  {
    later := run;
    if from < run.Final().t.clones[c].end {
      var next := Then(run, CaptureBlock(c, from));
      assert next.Final().t.clones.Keys == run.Final().t.clones.Keys;
      later := ReadRest(next, c, from + 1);
      assert GoesOn(next, run);
      GoesOnFurther(later, next, run);
    }
  }

  lemma Completed(s: State, c: nat, ok: bool)
    requires Enabled(s, CompleteClone(c, ok))
    ensures var s' := Next(s, CompleteClone(c, ok));
            && s'.t.clones.Keys == s.t.clones.Keys - {c}
            && s'.broken == (if ok then s.broken else s.broken + 1)
            && (!ok ==> s'.cowQ == s.cowQ)
  {
    PutLeavesClones(RemoveClone(s.t, c), s.t.clones[c].owner);
  }

  lemma CompleteOne(run: Run, c: nat) returns (later: Run)
    requires run.Valid() && run.Final().t.readQ == [] && c in run.Final().t.clones
    ensures GoesOn(later, run) && later.Valid()
    ensures later.Final().t.clones.Keys == run.Final().t.clones.Keys - {c} && later.Final().broken == run.Final().broken
  {
    RunGood(run);
    WaitingRun(run);
    CloneInside(run.Final(), c);
    var read := ReadRest(run, c, run.Final().t.clones[c].first);
    RunGood(read);
    assert OkClone(read.Final().t, c);
    Completed(read.Final(), c, true);
    later := Then(read, CompleteClone(c, true));
    assert GoesOn(later, read);
    GoesOnFurther(later, read, run);
  }

  lemma {:induction false} EndAll(run: Run) returns (later: Run)
    requires run.Valid()
    ensures GoesOn(later, run) && later.Valid()
    ensures later.Final().t.clones == map[] && later.Final().broken == run.Final().broken
    decreases run.Final().t.clones.Keys
  {
    later := SendAll(run);
    if later.Final().t.clones.Keys != {} {
      var sent := later;
      var c :| c in sent.Final().t.clones.Keys;
      var next := CompleteOne(sent, c);
      later := EndAll(next);
      GoesOnFurther(later, next, sent);
      GoesOnFurther(later, sent, run);
    }
  }

  /** The wait can end if and only if no clone's read has failed: then the clones
      that are out can all come back, and otherwise the counters never meet. */
  lemma WaitCanEndExactly(run: Run)
    requires run.Valid()
    ensures (exists later: Run :: GoesOn(later, run) && later.Valid() && WaitOver(later.Final()))
            <==> run.Final().broken == 0
  {
    if run.Final().broken == 0 {
      var later := EndAll(run);
      WaitOverExactly(later);
    } else {
      forall later: Run | GoesOn(later, run) && later.Valid()
        ensures !WaitOver(later.Final())
      {
        BrokenStays(later, run);
        WaitOverExactly(later);
      }
    }
  }

  // ----------------------------------------------------------- a failed clone

  function Zeros512(): (s: seq<Word>)
    ensures |s| == 512
  {
    seq<Word>(512, _ => 0)
  }

  function Tried(): Run {
    Then(Then(Then(Then(Start(Zeros512()), BeginTrace(Tracker.Write(0, 8, Zeros512()))), IssueClone(0, 1)),
              FinishTrace(0)), SubmitClone)
  }

  lemma TriedState()
    ensures Tried().Valid()
    ensures var t := Tried().Final().t;
            && t.clones == map[0 := Clone(0, 0, 1, true, map[])] && 0 in t.traces && Tried().Final().broken == 0
            && Tried().Final().cowQ == []
  {
    var w := Tracker.Write(0, 8, Zeros512());
    var s1 := Next(Init(Zeros512()), BeginTrace(w));
    assert s1.t == IDLE.(traces := map[0 := Trace(w, 0, 0, 1, true, 1)], writes := 1);
    var s2 := Next(s1, IssueClone(0, 1));
    assert s2.t.clones == map[0 := Clone(0, 0, 1, false, map[])] && s2.t.readQ == [0];
    var s3 := Next(s2, FinishTrace(0));
    assert s3.t.clones == s2.t.clones && s3.t.readQ == [0] && 0 in s3.t.traces;
    var s4 := Next(s3, SubmitClone);
    assert s4.t.clones == map[0 := Clone(0, 0, 1, true, map[])];
  }

  lemma FailedRead(s: State)
    requires s.t.clones == map[0 := Clone(0, 0, 1, true, map[])] && 0 in s.t.traces && s.broken == 0 && s.cowQ == []
    ensures var s' := Next(s, CompleteClone(0, false)); s'.t.clones == map[] && s'.broken == 1 && s'.cowQ == []
  {
    Completed(s, 0, false);
    assert Next(s, CompleteClone(0, false)).t.clones.Keys == {};
  }

  /** One read error, and teardown waits for ever: nothing is outstanding, the queue
      is empty, and no continuation makes the counters equal. */
  lemma FailedCloneHangsTeardown() returns (run: Run)
    ensures run.Valid() && run.Final().t.clones == map[] && run.Final().cowQ == []
    ensures forall later: Run :: GoesOn(later, run) && later.Valid() ==> !WaitOver(later.Final())
  {
    TriedState();
    run := Then(Tried(), CompleteClone(0, false));
    FailedRead(Tried().Final());
    forall later: Run | GoesOn(later, run) && later.Valid()
      ensures !WaitOver(later.Final())
    {
      BrokenStays(later, run);
      WaitOverExactly(later);
    }
  }
}
