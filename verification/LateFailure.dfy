/** A failure that comes too late to be seen: the sector set of a write is still
    queued when the next snapshot is made, cannot be marked, and is the last one.
    The transition succeeds and the old index misses the block. */
module LateFailure {
  import opened Blocks
  import opened Tracker
  import opened Protocol
  import opened IncTracing
  import opened BackupCycle

  function Page0(v: Word): (s: seq<Word>)
    ensures |s| == 512 && forall i :: 0 <= i < 512 ==> s[i] == v
  {
    seq<Word>(512, _ => v)
  }

  function Ones(): Tracker.Write { Write(0, 8, Page0(1)) }

  const SEGS := [Segment(8, false)]
  const SSETS := [SectorSet(0, 8)]

  function Traced(): Story {
    Continued(Continued(Opening(Page0(0)), ToIncremental), IncWrite(Ones(), SEGS, SSETS))
  }

  function Landed(): Story {
    Continued(Continued(Traced(), IncLand(0, 0)), IncDone(0))
  }

  function Late(): Story {
    Continued(Continued(Landed(), ToSnapshot), SsetThread(false, 0))
  }

  lemma WholeWriteReported()
    ensures Reports(SSETS, SEGS, 0) && Length(SEGS) == 8 && Foreign(SEGS, 0, 0)
  {
    assert SEGS[..0] == [];
    forall t: nat
      ensures Reported(SSETS, t) <==> Foreign(SEGS, 0, t)
    {
      assert Contains(SSETS[0], t) <==> t < 8;
    }
  }

  lemma AfterTrace()
    ensures Traced().Valid()
    ensures var c := Traced().Final();
            && c.phase == Incremental && c.pending == SSETS && c.passing == map[0 := Passing(Ones(), SEGS)]
            && !c.incFail && c.marked == {} && c.stray == {} && c.lost == {} && !c.gone
            && c.first == Init(Page0(0))
  {
    WholeWriteReported();
    var c0 := BeginCycle(Page0(0));
    var c1 := c0.(phase := Incremental);
    assert Possible(c0, ToIncremental) && After(c0, ToIncremental) == c1;
    assert Possible(c1, IncWrite(Ones(), SEGS, SSETS));
    assert Traced().Final() == After(c1, IncWrite(Ones(), SEGS, SSETS));
  }

  lemma WordLands()
    ensures Next(Init(Page0(0)), Stray(0, 1)) == Init(Page0(0)).(base := Page0(0)[0 := 1], untraced := {0})
  {
  }

  lemma LandingStep(c: Cycle)
    requires c.phase == Incremental && c.passing == map[0 := Passing(Ones(), SEGS)] && c.first == Init(Page0(0))
    ensures Possible(c, IncLand(0, 0)) && After(c, IncLand(0, 0)) == c.(first := Next(c.first, Stray(0, 1)))
  {
    WholeWriteReported();
  }

  lemma AfterLanding()
    ensures Landed().Valid()
    ensures var c := Landed().Final();
            && c.phase == Incremental && c.pending == SSETS && c.passing == map[]
            && !c.incFail && c.marked == {} && c.stray == {} && c.lost == {} && !c.gone
            && c.first == Init(Page0(0)).(base := Page0(0)[0 := 1], untraced := {0})
  {
    AfterTrace();
    var c := Traced().Final();
    LandingStep(c);
    WordLands();
    var c' := After(c, IncLand(0, 0));
    assert Landed().Final() == c'.(passing := c'.passing - {0});
  }

  /** The end of it: nothing is pending, the old file is there, a block differs
      between the snapshots, and its entry in the index is zero. */
  lemma LateFailureMissesBlock()
    ensures Late().Valid() && Settled(Late().Final()) && Late().Final().incFail
    ensures Late().Final().stray == {} && Differs(Late().Final(), 0) && 0 !in Index(Late().Final())
    ensures !IndexComplete(Late().Final())
  {
    AfterLanding();
    var c := Landed().Final();
    assert Possible(c, ToSnapshot);
    var c1 := After(c, ToSnapshot);
    assert c1.first == c.first && c1.second.s == Init(c.first.base);
    assert Possible(c1, SsetThread(false, 0));
    var c2 := Marking(c1, false, 0);
    assert Late().Final() == c2;
    assert c2.pending == [] && c2.marked == {};
    assert BlockAt(c2.first.snap, 0)[0] == 0 && BlockAt(c2.second.s.snap, 0)[0] == 1;
    assert Differs(c2, 0);
  }
}
