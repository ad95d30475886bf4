/** A snapshot read disturbed in its window: a run, without failures, stray writes
    or overtaking, whose answer is wrong. */
module Disturbance {
  import opened Blocks
  import opened Protocol
  import opened ReadWindow
  import DelayRead
  import Overtaking
  import Tracker

  const READ1 := Overtaking.READ1
  const READ3 := Overtaking.READ3

  /** The first write's clone is on its way. */
  function Sent(): State {
    Overtaking.Live(Overtaking.First(2, false, 1, Overtaking.FirstClone(true, map[]), []), Overtaking.Disk(), [READ3],
                    1, 0, map[])
  }

  ghost predicate At(p: Passage, m: Window) {
    p.Valid() && p.Final() == m
  }

  function Held(got: map<nat, Word>): Option<Hand> {
    Some(Hand(READ1, Overtaking.Disk(), got))
  }

  /** A step of the plain machine, while the read is held. */
  lemma Along(p: Passage, run: Run, step: Step) returns (p': Passage, run': Run)
    requires run.Valid() && At(p, Window(run.Final(), Held(map[]))) && !step.CowThread?
    requires p.InOrder() && p.Undisturbed()
    ensures p' == Moved(p, Inner(step)) && run' == Run.Then(run, step)
    ensures run'.Valid() && At(p', Window(run'.Final(), Held(map[]))) && p'.InOrder() && p'.Undisturbed()
  {
    p', run' := Moved(p, Inner(step)), Run.Then(run, step);
  }

  /** The read of block 1 is taken with nothing stored. */
  lemma TakeRead() returns (p: Passage, run: Run)
    ensures Overtaking.Reaches(run, Overtaking.Live(Tracker.IDLE, Overtaking.Disk(), [READ3], 0, 0, map[]))
    ensures At(p, Window(run.Final(), Held(map[]))) && p.InOrder() && p.Undisturbed()
  {
    run := Overtaking.Requested();
    var open := Passage.Open(Overtaking.Disk());
    var asked := Moved(Moved(open, Inner(SnapshotRequest(8, 8))), Inner(SnapshotRequest(24, 8)));
    assert asked.Final().s == Init(Overtaking.Disk()).(cowQ := [READ1, READ3]);
    assert DelayRead.Picked([READ1, READ3]) == 0 && DelayRead.Rest([READ1, READ3]) == [READ3];
    p := Moved(asked, Take);
    assert p.Final() == Window(run.Final(), Held(map[]));
  }

  lemma FirstHalf(p: Passage, run: Run) returns (p': Passage, run': Run)
    requires Overtaking.Reaches(run, Overtaking.Live(Tracker.IDLE, Overtaking.Disk(), [READ3], 0, 0, map[]))
    requires At(p, Window(run.Final(), Held(map[]))) && p.InOrder() && p.Undisturbed()
    ensures Overtaking.Reaches(run', Sent())
    ensures At(p', Window(run'.Final(), Held(map[]))) && p'.InOrder() && p'.Undisturbed()
  {
    Overtaking.BeginFirst(run);
    p', run' := Along(p, run, BeginTrace(Overtaking.Small()));
    Overtaking.IssueFirst(run');
    p', run' := Along(p', run', IssueClone(0, 1));
    Overtaking.FinishFirst(run');
    p', run' := Along(p', run', FinishTrace(0));
    Overtaking.SubmitFirst(run');
    p', run' := Along(p', run', SubmitClone);
  }

  /** Block 1 is captured, the write released, and a word of it lands. */
  lemma SecondHalf(p: Passage, run: Run) returns (p': Passage)
    requires Overtaking.Reaches(run, Sent())
    requires At(p, Window(run.Final(), Held(map[]))) && p.InOrder() && p.Undisturbed()
    ensures At(p', Window(Overtaking.Live(Overtaking.Released([], {0}), Overtaking.Dirty(), [READ3, Overtaking.Early()],
                                          1, 1, Overtaking.EarlyFirsts()), Held(map[])))
    ensures p'.InOrder() && p'.Undisturbed()
  {
    var run';
    Overtaking.CaptureFirst(run);
    p', run' := Along(p, run, CaptureBlock(0, 1));
    Overtaking.CompleteFirst(run');
    p', run' := Along(p', run', CompleteClone(0, true));
    Overtaking.ReleaseFirst(run');
    p', run' := Along(p', run', SubmitOriginal);
    Overtaking.LandFirst(run');
    p', run' := Along(p', run', Land(0, 512));
  }

  /** Nothing guards the window: in a passage free of failures, stray writes and
      overtaking, a write that is captured, released and lands while a read of its
      block is held makes the read's answer wrong. */
  lemma WindowBreaksIsolation() returns (p: Passage)
    ensures p.Valid() && p.InOrder() && !p.Undisturbed()
    ensures var s := p.Final().s;
            && !s.fail && s.untraced == {} && |s.answers| == 1
            && s.answers[0].sector == 8 && |s.answers[0].data| == 512 && |s.snap| == 2048
            && s.answers[0].data[0] == 1 && s.snap[512] == 0
  {
    var run;
    p, run := TakeRead();
    p, run := FirstHalf(p, run);
    p := SecondHalf(p, run);
    p := GiveDirty(p);
  }

  lemma GiveDirty(held: Passage) returns (p: Passage)
    requires At(held, Window(Overtaking.Live(Overtaking.Released([], {0}), Overtaking.Dirty(),
                                             [READ3, Overtaking.Early()], 1, 1, Overtaking.EarlyFirsts()), Held(map[])))
    requires held.InOrder() && held.Undisturbed()
    ensures p.Valid() && p.InOrder() && !p.Undisturbed()
    ensures var s := p.Final().s;
            && !s.fail && s.untraced == {} && |s.answers| == 1
            && s.answers[0].sector == 8 && |s.answers[0].data| == 512 && |s.snap| == 2048
            && s.answers[0].data[0] == 1 && s.snap[512] == 0
  {
    var fetched := Moved(held, Fetch(512, 512));
    var m := fetched.Final();
    var h := m.hand.value;
    assert h.bio == READ1 && h.got[512] == 1 && h.atTake[512] == 0;
    forall w: nat | InRead(h.bio, w)
      ensures w in h.got
    {
    }
    assert Allowed(m, Give);
    assert InRead(h.bio, 512);
    assert !Quiet(m.s, h);
    p := Moved(fetched, Give);
    assert p.Final().s.answers == [Reply(m.s, h)];
    assert Reply(m.s, h).data[0] == GivenAt(m.s, h, 512);
  }
}
