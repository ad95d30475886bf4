/** Why snapshot isolation needs its order hypothesis: a run, without failures
    or stray writes, in which a clone lifted over an earlier one poisons the
    store and a later snapshot read returns data written after the snapshot. */
module Overtaking {
  import opened Blocks
  import opened Tracker
  import opened Protocol
  import DelayRead
  import Isolation

  function Fill(n: nat, v: Word): (s: seq<Word>)
    ensures |s| == n && forall i :: 0 <= i < n ==> s[i] == v
  {
    seq<Word>(n, i => v)
  }

  function Disk(): (s: seq<Word>)
    ensures |s| == 2048
  {
    Fill(2048, 0)
  }

  function Small(): Write { Write(8, 8, Fill(512, 1)) }
  function Large(): Write { Write(8, 24, Fill(1536, 2)) }

  /** The disk after the first word of the small write has landed. */
  function Dirty(): (s: seq<Word>)
    ensures |s| == 2048
  {
    Disk()[512 := 1]
  }

  const READ3 := Bio(0, false, 24, 8, [])
  const READ1 := Bio(0, false, 8, 8, [])
  function Early(): Bio { Bio(0, true, 8, 8, [BlockAt(Disk(), 1)]) }
  function Late(): Bio { Bio(1, true, 8, 24, [BlockAt(Dirty(), 1), BlockAt(Dirty(), 2), BlockAt(Dirty(), 3)]) }

  /** States before anything is stored. */
  function Live(t: Tracing, base: seq<Word>, q: seq<Bio>, n: nat, m: nat, firsts: map<nat, Page>): State {
    State(4, Disk(), base, false, t, q, map[], [], n, m, 0, firsts, {})
  }

  predicate Reaches(run: Run, s: State) {
    run.Valid() && run.Final() == s
  }

  // The tracer while the first write is traced, read, and released.

  function First(next: nat, holder: bool, refs: nat, clones: map<nat, Clone>, readQ: seq<nat>): Tracing {
    Tracing(map[0 := Trace(Small(), 1, next, 2, holder, refs)], clones, readQ, [], map[], {}, 1, |clones|, [], {})
  }

  function FirstClone(sent: bool, got: map<nat, Page>): map<nat, Clone> {
    map[0 := Clone(0, 1, 2, sent, got)]
  }

  function Released(origQ: seq<nat>, landing: set<nat>): Tracing {
    Tracing(map[], map[], [], origQ, map[0 := Small()], landing, 1, 1, [0], {})
  }

  function EarlyFirsts(): map<nat, Page> { map[1 := BlockAt(Disk(), 1)] }

  lemma Requested() returns (run: Run)
    ensures Reaches(run, Live(IDLE, Disk(), [READ3], 0, 0, map[]))
  {
    run := Then(Start(Disk()), SnapshotRequest(24, 8));
  }

  lemma BeginFirst(run: Run)
    requires Reaches(run, Live(IDLE, Disk(), [READ3], 0, 0, map[]))
    ensures Reaches(Then(run, BeginTrace(Small())), Live(First(1, true, 1, map[], []), Disk(), [READ3], 0, 0, map[]))
  {
  }

  lemma IssueFirst(run: Run)
    requires Reaches(run, Live(First(1, true, 1, map[], []), Disk(), [READ3], 0, 0, map[]))
    ensures Reaches(Then(run, IssueClone(0, 1)),
                    Live(First(2, true, 2, FirstClone(false, map[]), [0]), Disk(), [READ3], 1, 0, map[]))
  {
  }

  lemma FinishFirst(run: Run)
    requires Reaches(run, Live(First(2, true, 2, FirstClone(false, map[]), [0]), Disk(), [READ3], 1, 0, map[]))
    ensures Reaches(Then(run, FinishTrace(0)),
                    Live(First(2, false, 1, FirstClone(false, map[]), [0]), Disk(), [READ3], 1, 0, map[]))
  {
  }

  lemma SubmitFirst(run: Run)
    requires Reaches(run, Live(First(2, false, 1, FirstClone(false, map[]), [0]), Disk(), [READ3], 1, 0, map[]))
    ensures Reaches(Then(run, SubmitClone),
                    Live(First(2, false, 1, FirstClone(true, map[]), []), Disk(), [READ3], 1, 0, map[]))
  {
    assert Submit(run.Final().t).clones == FirstClone(true, map[]);
  }

  lemma CaptureFirst(run: Run)
    requires Reaches(run, Live(First(2, false, 1, FirstClone(true, map[]), []), Disk(), [READ3], 1, 0, map[]))
    ensures Reaches(Then(run, CaptureBlock(0, 1)),
                    Live(First(2, false, 1, FirstClone(true, EarlyFirsts()), []), Disk(), [READ3], 1, 0, map[]))
  {
    assert Capture(run.Final().t, 0, 1, BlockAt(Disk(), 1)).clones == FirstClone(true, EarlyFirsts());
  }

  lemma EarlyFirst()
    ensures StoreClone(map[], Early()) == EarlyFirsts()
  {
    assert Early().pages[0] == BlockAt(Disk(), 1);
  }

  lemma EarlyCaptured()
    ensures FullyRead(FirstClone(true, EarlyFirsts())[0]) && Captured(0, FirstClone(true, EarlyFirsts())[0]) == Early()
  {
  }

  lemma FirstDropped()
    ensures Complete(First(2, false, 1, FirstClone(true, EarlyFirsts()), []), 0) == Released([0], {})
  {
    assert FirstClone(true, EarlyFirsts()) - {0} == map[];
  }

  lemma QueuedFirst(t: Tracing, t': Tracing, early: Bio, firsts: map<nat, Page>)
    requires StoreClone(map[], early) == firsts
    ensures Queue(Live(t, Disk(), [READ3], 1, 0, map[]), early).(t := t')
            == Live(t', Disk(), [READ3, early], 1, 1, firsts)
  {
    assert [READ3] + [early] == [READ3, early];
  }

  lemma FirstCompleted(s: State)
    requires s == Live(First(2, false, 1, FirstClone(true, EarlyFirsts()), []), Disk(), [READ3], 1, 0, map[])
    ensures Next(s, CompleteClone(0, true))
            == Live(Released([0], {}), Disk(), [READ3, Early()], 1, 1, EarlyFirsts())
  {
    EarlyCaptured();
    EarlyFirst();
    FirstDropped();
    Isolation.CompleteIsQueue(s, 0);
    QueuedFirst(s.t, Released([0], {}), Early(), EarlyFirsts());
  }

  lemma CompleteFirst(run: Run)
    requires Reaches(run, Live(First(2, false, 1, FirstClone(true, EarlyFirsts()), []), Disk(), [READ3], 1, 0, map[]))
    ensures Reaches(Then(run, CompleteClone(0, true)),
                    Live(Released([0], {}), Disk(), [READ3, Early()], 1, 1, EarlyFirsts()))
  {
    FirstCompleted(run.Final());
  }

  lemma ReleaseFirst(run: Run)
    requires Reaches(run, Live(Released([0], {}), Disk(), [READ3, Early()], 1, 1, EarlyFirsts()))
    ensures Reaches(Then(run, SubmitOriginal),
                    Live(Released([], {0}), Disk(), [READ3, Early()], 1, 1, EarlyFirsts()))
  {
  }

  lemma LandFirst(run: Run)
    requires Reaches(run, Live(Released([], {0}), Disk(), [READ3, Early()], 1, 1, EarlyFirsts()))
    ensures Reaches(Then(run, Land(0, 512)),
                    Live(Released([], {0}), Dirty(), [READ3, Early()], 1, 1, EarlyFirsts()))
  {
  }

  lemma SendFirst(requested: Run) returns (run: Run)
    requires Reaches(requested, Live(IDLE, Disk(), [READ3], 0, 0, map[]))
    ensures Reaches(run, Live(First(2, false, 1, FirstClone(true, map[]), []), Disk(), [READ3], 1, 0, map[]))
  {
    BeginFirst(requested);
    run := Then(requested, BeginTrace(Small()));
    IssueFirst(run);
    run := Then(run, IssueClone(0, 1));
    FinishFirst(run);
    run := Then(run, FinishTrace(0));
    SubmitFirst(run);
    run := Then(run, SubmitClone);
  }

  /** A snapshot read of block 3 is queued; block 1 is captured for a first
      write, which is released, and a word of it lands. */
  lemma FirstWrite() returns (run: Run)
    ensures Reaches(run, Live(Released([], {0}), Dirty(), [READ3, Early()], 1, 1, EarlyFirsts()))
  {
    run := Requested();
    run := SendFirst(run);
    CaptureFirst(run);
    run := Then(run, CaptureBlock(0, 1));
    CompleteFirst(run);
    run := Then(run, CompleteClone(0, true));
    ReleaseFirst(run);
    run := Then(run, SubmitOriginal);
    LandFirst(run);
    run := Then(run, Land(0, 512));
  }

  // The second write, to blocks 1 to 3, traced while the first is landing.

  function Second(next: nat, holder: bool, refs: nat, clones: map<nat, Clone>, readQ: seq<nat>): Tracing {
    Tracing(map[1 := Trace(Large(), 1, next, 4, holder, refs)], clones, readQ, [],
            map[0 := Small()], {0}, 2, 1 + |clones|, [0], {})
  }

  function SecondClone(sent: bool, got: map<nat, Page>): map<nat, Clone> {
    map[1 := Clone(1, 1, 4, sent, got)]
  }

  function Busy(t: Tracing, n: nat): State {
    Live(t, Dirty(), [READ3, Early()], n, 1, EarlyFirsts())
  }

  /** Blocks 1 up to n as they are on the device now. */
  function Now(n: nat): map<nat, Page>
    requires n <= 4
  {
    map b: nat | 1 <= b < n :: BlockAt(Dirty(), b)
  }

  function Done(): Tracing {
    Tracing(map[], map[], [], [1], map[0 := Small(), 1 := Large()], {0}, 2, 2, [0, 1], {})
  }

  function AllFirsts(): map<nat, Page> {
    map[1 := BlockAt(Disk(), 1), 2 := BlockAt(Dirty(), 2), 3 := BlockAt(Dirty(), 3)]
  }

  lemma BeginSecond(run: Run)
    requires Reaches(run, Busy(Released([], {0}), 1))
    ensures Reaches(Then(run, BeginTrace(Large())), Busy(Second(1, true, 1, map[], []), 1))
  {
  }

  lemma IssueSecond(run: Run)
    requires Reaches(run, Busy(Second(1, true, 1, map[], []), 1))
    ensures Reaches(Then(run, IssueClone(1, 3)), Busy(Second(4, true, 2, SecondClone(false, map[]), [1]), 2))
  {
  }

  lemma FinishSecond(run: Run)
    requires Reaches(run, Busy(Second(4, true, 2, SecondClone(false, map[]), [1]), 2))
    ensures Reaches(Then(run, FinishTrace(1)), Busy(Second(4, false, 1, SecondClone(false, map[]), [1]), 2))
  {
  }

  lemma SubmitSecond(run: Run)
    requires Reaches(run, Busy(Second(4, false, 1, SecondClone(false, map[]), [1]), 2))
    ensures Reaches(Then(run, SubmitClone), Busy(Second(4, false, 1, SecondClone(true, Now(1)), []), 2))
  {
    assert Now(1) == map[];
    assert Submit(run.Final().t).clones == SecondClone(true, map[]);
  }

  lemma CapturedMore(b: nat)
    requires 1 <= b < 4
    ensures Capture(Second(4, false, 1, SecondClone(true, Now(b)), []), 1, b, BlockAt(Dirty(), b))
            == Second(4, false, 1, SecondClone(true, Now(b + 1)), [])
  {
    assert Now(b)[b := BlockAt(Dirty(), b)] == Now(b + 1);
  }

  lemma CaptureSecond(run: Run, b: nat)
    requires 1 <= b < 4
    requires Reaches(run, Busy(Second(4, false, 1, SecondClone(true, Now(b)), []), 2))
    ensures Reaches(Then(run, CaptureBlock(1, b)), Busy(Second(4, false, 1, SecondClone(true, Now(b + 1)), []), 2))
  {
    CapturedMore(b);
  }

  lemma LateFirsts()
    ensures StoreClone(EarlyFirsts(), Late()) == AllFirsts()
  {
    assert Late().pages[0] == BlockAt(Dirty(), 1);
  }

  lemma LateCaptured()
    ensures FullyRead(SecondClone(true, Now(4))[1]) && Captured(1, SecondClone(true, Now(4))[1]) == Late()
  {
  }

  lemma SecondDropped()
    ensures Complete(Second(4, false, 1, SecondClone(true, Now(4)), []), 1) == Done()
  {
    assert SecondClone(true, Now(4)) - {1} == map[];
  }

  lemma QueuedSecond(t: Tracing, t': Tracing, early: Bio, late: Bio, firsts: map<nat, Page>, firsts': map<nat, Page>)
    requires StoreClone(firsts, late) == firsts'
    ensures Queue(Live(t, Dirty(), [READ3, early], 2, 1, firsts), late).(t := t')
            == Live(t', Dirty(), [READ3, early, late], 2, 2, firsts')
  {
    assert [READ3, early] + [late] == [READ3, early, late];
  }

  lemma SecondCompleted(s: State)
    requires s == Busy(Second(4, false, 1, SecondClone(true, Now(4)), []), 2)
    ensures Next(s, CompleteClone(1, true)) == Live(Done(), Dirty(), [READ3, Early(), Late()], 2, 2, AllFirsts())
  {
    LateCaptured();
    LateFirsts();
    SecondDropped();
    Isolation.CompleteIsQueue(s, 1);
    QueuedSecond(s.t, Done(), Early(), Late(), EarlyFirsts(), AllFirsts());
  }

  lemma CompleteSecond(run: Run)
    requires Reaches(run, Busy(Second(4, false, 1, SecondClone(true, Now(4)), []), 2))
    ensures Reaches(Then(run, CompleteClone(1, true)),
                    Live(Done(), Dirty(), [READ3, Early(), Late()], 2, 2, AllFirsts()))
  {
    SecondCompleted(run.Final());
  }

  lemma SendSecond(first: Run) returns (run: Run)
    requires Reaches(first, Busy(Released([], {0}), 1))
    ensures Reaches(run, Busy(Second(4, false, 1, SecondClone(true, Now(1)), []), 2))
  {
    BeginSecond(first);
    run := Then(first, BeginTrace(Large()));
    IssueSecond(run);
    run := Then(run, IssueClone(1, 3));
    FinishSecond(run);
    run := Then(run, FinishTrace(1));
    SubmitSecond(run);
    run := Then(run, SubmitClone);
  }

  lemma ReadSecond(sent: Run) returns (run: Run)
    requires Reaches(sent, Busy(Second(4, false, 1, SecondClone(true, Now(1)), []), 2))
    ensures Reaches(run, Busy(Second(4, false, 1, SecondClone(true, Now(4)), []), 2))
  {
    CaptureSecond(sent, 1);
    run := Then(sent, CaptureBlock(1, 1));
    CaptureSecond(run, 2);
    run := Then(run, CaptureBlock(1, 2));
    CaptureSecond(run, 3);
    run := Then(run, CaptureBlock(1, 3));
  }

  lemma SecondWrite() returns (run: Run)
    ensures Reaches(run, Live(Done(), Dirty(), [READ3, Early(), Late()], 2, 2, AllFirsts()))
  {
    run := FirstWrite();
    run := SendSecond(run);
    run := ReadSecond(run);
    CompleteSecond(run);
    run := Then(run, CompleteClone(1, true));
  }

  // The cow thread.

  function Poison(): map<nat, Page> {
    map[1 := BlockAt(Dirty(), 1), 2 := BlockAt(Dirty(), 2), 3 := BlockAt(Dirty(), 3)]
  }

  function Poisoned(q: seq<Bio>, answers: seq<Answer>): State {
    State(4, Disk(), Dirty(), false, Done(), q, Poison(), answers, 2, 2, 0, AllFirsts(), {})
  }

  lemma Lifted()
    ensures var q := [READ3, Early(), Late()];
            && DelayRead.Picked(q) == 2 && DelayRead.Rest(q) == [Early(), READ3]
            && DelayRead.Overtakes(q, {})
  {
    var q := [READ3, Early(), Late()];
    assert !DelayRead.Overlap(READ3, Early()) && DelayRead.Overlap(READ3, Late());
    assert q[1] == Early() && q[2] == Late() && !q[0].write && q[2].write;
    assert DelayRead.Picked(q) == 2;
    assert q[1..2] + [q[0]] + q[3..] == [Early(), READ3];
    assert Covers(q[1], 1) && q[1].write && Covers(q[2], 1);
    assert DelayRead.OvertakesAt(q, 1);
  }

  lemma LateStored()
    ensures StoreClone(map[], Late()) == Poison()
  {
    assert Late().pages[0] == BlockAt(Dirty(), 1);
  }

  lemma LiftLate(run: Run)
    requires Reaches(run, Live(Done(), Dirty(), [READ3, Early(), Late()], 2, 2, AllFirsts()))
    ensures Reaches(Then(run, CowThread(Handled)), Poisoned([Early(), READ3], []))
    ensures !Then(run, CowThread(Handled)).InOrder()
  {
    Lifted();
    LateStored();
    assert run.Final().store.Keys == {};
  }

  lemma RequestBlock1(run: Run)
    requires Reaches(run, Poisoned([Early(), READ3], []))
    ensures Reaches(Then(run, SnapshotRequest(8, 8)), Poisoned([Early(), READ3, READ1], []))
  {
  }

  lemma SkipEarly(run: Run)
    requires Reaches(run, Poisoned([Early(), READ3, READ1], []))
    ensures Reaches(Then(run, CowThread(Handled)), Poisoned([READ3, READ1], []))
  {
    assert StoreClone(Poison(), Early()) == Poison();
    assert [Early(), READ3, READ1][1..] == [READ3, READ1];
  }

  function Reply(r: Bio): Answer
    requires (r.sector + r.sectors) * 64 <= 2048
  {
    Answer(r.sector, r.sectors, SnapshotRead(Dirty(), Poison(), r.sector, r.sectors))
  }

  lemma AnswerBlock3(run: Run)
    requires Reaches(run, Poisoned([READ3, READ1], []))
    ensures Reaches(Then(run, CowThread(Handled)), Poisoned([READ1], [Reply(READ3)]))
  {
    assert [READ3, READ1][1..] == [READ1];
  }

  lemma AnswerBlock1(run: Run)
    requires Reaches(run, Poisoned([READ1], [Reply(READ3)]))
    ensures Reaches(Then(run, CowThread(Handled)), Poisoned([], [Reply(READ3), Reply(READ1)]))
  {
    assert [READ1][1..] == [];
    assert [Reply(READ3)] + [Reply(READ1)] == [Reply(READ3), Reply(READ1)];
  }

  lemma StaysOutOfOrder(run: Run, step: Step)
    requires run.Valid() && !run.InOrder()
    ensures !Then(run, step).InOrder()
  {
  }

  lemma PoisonedRun() returns (run: Run)
    ensures Reaches(run, Poisoned([], [Reply(READ3), Reply(READ1)])) && !run.InOrder()
  {
    run := SecondWrite();
    LiftLate(run);
    run := Then(run, CowThread(Handled));
    RequestBlock1(run);
    StaysOutOfOrder(run, SnapshotRequest(8, 8));
    run := Then(run, SnapshotRequest(8, 8));
    SkipEarly(run);
    StaysOutOfOrder(run, CowThread(Handled));
    run := Then(run, CowThread(Handled));
    AnswerBlock3(run);
    StaysOutOfOrder(run, CowThread(Handled));
    run := Then(run, CowThread(Handled));
    AnswerBlock1(run);
    StaysOutOfOrder(run, CowThread(Handled));
    run := Then(run, CowThread(Handled));
  }

  /** The order hypothesis cannot be dropped: some run free of failures and stray
      writes answers a snapshot read of block 1 with the first write's data. */
  lemma OvertakingBreaksIsolation() returns (run: Run)
    ensures run.Valid() && !run.InOrder()
    ensures var s := run.Final();
            && !s.fail && s.untraced == {} && |s.answers| == 2
            && s.answers[1].sector == 8 && |s.answers[1].data| == 512 && |s.snap| == 2048
            && s.answers[1].data[0] == 1 && s.snap[512] == 0
  {
    run := PoisonedRun();
    assert Reply(READ1).data[0] == SnapshotWord(Dirty(), Poison(), 512);
  }
}
