/** What mapping operations do to the sections' usage counters and to which sections
    are in memory, and what the counters mean. */
module CowUsage {
  import opened CowSweep

  /** Which sections are in memory, which have data, and how often each was used. */
  datatype Cache = Cache(inMemory: seq<bool>, hasData: seq<bool>, usage: seq<nat>)
  {
    predicate Of(total: nat) {
      |inMemory| == |hasData| == |usage| == total
    }
  }

  /** One mapping operation: its section, and whether it writes. */
  datatype Use = Use(section: nat, write: bool)

  function Trues(flags: seq<bool>): (n: nat)
    ensures n <= |flags|
  {
    if flags == [] then 0 else (if flags[0] then 1 else 0) + Trues(flags[1..])
  }

  /** The sweep's result: the first k sections had their turn. */
  function SweepTo(c: Cache, thresh: nat, k: nat): (c': Cache)
    requires c.Of(|c.usage|)
    ensures c'.Of(|c.usage|) && c'.hasData == c.hasData
    ensures forall j :: 0 <= j < |c.usage| ==>
              && c'.usage[j] == (if j < k then 0 else c.usage[j])
              && (c'.inMemory[j] <==> c.inMemory[j] && !(j < k && Unwanted(c.usage[j], thresh)))
  {
    Cache(seq(|c.usage|, j requires 0 <= j < |c.usage| => c.inMemory[j] && !(j < k && Unwanted(c.usage[j], thresh))),
          c.hasData,
          seq<nat>(|c.usage|, j requires 0 <= j < |c.usage| => if j < k then 0 else c.usage[j]))
  }

  /** How many sections have their turn in a cleanup of this cache. */
  function Turns(c: Cache, allowed: nat): (k: nat)
    requires c.Of(|c.usage|)
    ensures k <= |c.usage|
  {
    Reached(c.inMemory, c.usage, Threshold(c.usage), allowed / 2, 0, Trues(c.inMemory))
  }

  /** A cache over its limit is cleaned up, any other left alone. */
  function Tidy(c: Cache, allowed: nat): (c': Cache)
    requires c.Of(|c.usage|)
    ensures c'.Of(|c.usage|)
  {
    if Trues(c.inMemory) <= allowed then c else SweepTo(c, Threshold(c.usage), Turns(c, allowed))
  }

  /** The section is used once more. */
  function Raise(c: Cache, i: nat): (c': Cache)
    requires c.Of(|c.usage|) && i < |c.usage|
    ensures c'.Of(|c.usage|)
  {
    c.(usage := c.usage[i := c.usage[i] + 1])
  }

  /** The section is brought into memory. */
  function Bring(c: Cache, i: nat): (c': Cache)
    requires c.Of(|c.usage|) && i < |c.usage|
    ensures c'.Of(|c.usage|)
  {
    c.(inMemory := c.inMemory[i := true], hasData := c.hasData[i := true])
  }

  /** A lookup of a section without data ends before anything else happens. */
  predicate EndsEarly(c: Cache, use: Use)
    requires c.Of(|c.usage|) && use.section < |c.usage|
  {
    !use.write && !c.inMemory[use.section] && !c.hasData[use.section]
  }

  /** A successful mapping operation. */
  function After(c: Cache, use: Use, allowed: nat): (c': Cache)
    requires c.Of(|c.usage|) && use.section < |c.usage|
    ensures c'.Of(|c.usage|)
  {
    if EndsEarly(c, use) then Raise(c, use.section)
    else Tidy(Bring(Raise(c, use.section), use.section), allowed)
  }

  predicate Within(uses: seq<Use>, total: nat) {
    forall n :: 0 <= n < |uses| ==> uses[n].section < total
  }

  function AfterAll(c: Cache, uses: seq<Use>, allowed: nat): (c': Cache)
    requires c.Of(|c.usage|) && Within(uses, |c.usage|)
    ensures c'.Of(|c.usage|)
  {
    if uses == [] then c
    else After(AfterAll(c, uses[..|uses| - 1], allowed), uses[|uses| - 1], allowed)
  }

  // ------------------------------------------------------- what a counter means

  /** Did this operation clean up? */
  predicate Cleans(c: Cache, use: Use, allowed: nat)
    requires c.Of(|c.usage|) && use.section < |c.usage|
  {
    !EndsEarly(c, use) && Trues(Bring(c, use.section).inMemory) > allowed
  }

  /** It cleaned up and came to section j: the flush was total, or more than half
      the limit was still in memory at the section's turn. */
  predicate Resets(c: Cache, use: Use, allowed: nat, j: nat)
    requires c.Of(|c.usage|) && use.section < |c.usage| && j < |c.usage|
  {
    var b := Bring(Raise(c, use.section), use.section);
    var thresh := Threshold(b.usage);
    && Cleans(c, use, allowed)
    && (thresh == 0 || Trues(b.inMemory) - DroppedBelow(b.inMemory, b.usage, thresh, j) > allowed / 2)
  }

  /** The uses of section j. */
  function UsesOf(uses: seq<Use>, j: nat): nat {
    if uses == [] then 0
    else UsesOf(uses[..|uses| - 1], j) + if uses[|uses| - 1].section == j then 1 else 0
  }

  /** How many of the uses came after the last one that reset section j's counter, or
      all of them, and whether there was one. */
  function SinceReset(c: Cache, uses: seq<Use>, allowed: nat, j: nat): (r: (nat, bool))
    requires c.Of(|c.usage|) && Within(uses, |c.usage|) && j < |c.usage|
    ensures r.0 <= |uses| && (!r.1 ==> r.0 == |uses|)
  {
    if uses == [] then (0, false)
    else
      var before := uses[..|uses| - 1];
      if Resets(AfterAll(c, before, allowed), uses[|uses| - 1], allowed, j) then (0, true)
      else var r := SinceReset(c, before, allowed, j); (r.0 + 1, r.1)
  }

  lemma AfterOne(c: Cache, use: Use, allowed: nat, j: nat)
    requires c.Of(|c.usage|) && use.section < |c.usage| && j < |c.usage|
    ensures After(c, use, allowed).usage[j]
            == if Resets(c, use, allowed, j) then 0 else c.usage[j] + if use.section == j then 1 else 0
  {
    if !EndsEarly(c, use) {
      var b := Bring(Raise(c, use.section), use.section);
      if Trues(b.inMemory) > allowed {
        ResetExactly(b.inMemory, b.usage, Threshold(b.usage), allowed / 2, Trues(b.inMemory), j);
      }
    }
  }

  lemma LastUse(uses: seq<Use>, r: nat, j: nat)
    requires 0 < r <= |uses|
    ensures var before := uses[..|uses| - 1];
            UsesOf(uses[|uses| - r..], j)
            == UsesOf(before[|before| - (r - 1)..], j) + if uses[|uses| - 1].section == j then 1 else 0
  {
    var before, tail := uses[..|uses| - 1], uses[|uses| - r..];
    assert tail[..|tail| - 1] == before[|before| - (r - 1)..];
  }

  /** The uses of section j since the last reset of its counter. */
  function Recent(c: Cache, uses: seq<Use>, allowed: nat, j: nat): seq<Use>
    requires c.Of(|c.usage|) && Within(uses, |c.usage|) && j < |c.usage|
  {
    uses[|uses| - SinceReset(c, uses, allowed, j).0..]
  }

  lemma RecentAfter(c: Cache, uses: seq<Use>, allowed: nat, j: nat)
    requires c.Of(|c.usage|) && Within(uses, |c.usage|) && j < |c.usage| && uses != []
    ensures var before, last := uses[..|uses| - 1], uses[|uses| - 1];
            if Resets(AfterAll(c, before, allowed), last, allowed, j)
            then SinceReset(c, uses, allowed, j) == (0, true) && UsesOf(Recent(c, uses, allowed, j), j) == 0
            else
              && SinceReset(c, uses, allowed, j).1 == SinceReset(c, before, allowed, j).1
              && UsesOf(Recent(c, uses, allowed, j), j)
                 == UsesOf(Recent(c, before, allowed, j), j) + if last.section == j then 1 else 0
  {
    var before, last := uses[..|uses| - 1], uses[|uses| - 1];
    if !Resets(AfterAll(c, before, allowed), last, allowed, j) {
      LastUse(uses, SinceReset(c, before, allowed, j).0 + 1, j);
    }
  }

  /** A section's counter is the number of its uses since it was last reset, on top of
      what it was at the beginning if it never was. */
  lemma {:induction false} CounterIsUses(c: Cache, uses: seq<Use>, allowed: nat, j: nat)
    requires c.Of(|c.usage|) && Within(uses, |c.usage|) && j < |c.usage|
    ensures AfterAll(c, uses, allowed).usage[j]
            == UsesOf(Recent(c, uses, allowed, j), j) + if SinceReset(c, uses, allowed, j).1 then 0 else c.usage[j]
  {
    if uses != [] {
      var before, last := uses[..|uses| - 1], uses[|uses| - 1];
      CounterIsUses(c, before, allowed, j);
      AfterOne(AfterAll(c, before, allowed), last, allowed, j);
      RecentAfter(c, uses, allowed, j);
    }
  }

  /** As long as nothing is cleaned up, every operation raises the counter of its own
      section by one and leaves the others. */
  lemma OnlyOwnCounter(c: Cache, use: Use, allowed: nat, j: nat)
    requires c.Of(|c.usage|) && use.section < |c.usage| && j < |c.usage| && !Cleans(c, use, allowed)
    ensures After(c, use, allowed).usage[j] == c.usage[j] + if use.section == j then 1 else 0
  {
    AfterOne(c, use, allowed, j);
  }

  /** A cleanup never evicts the section used most since the last reset, unless no
      section was used more than once: then it evicts all of them. */
  lemma MostUsedStays(c: Cache, use: Use, allowed: nat, j: nat)
    requires c.Of(|c.usage|) && use.section < |c.usage| && j < |c.usage| && Cleans(c, use, allowed)
    requires var b := Bring(Raise(c, use.section), use.section);
             b.inMemory[j] && forall i :: 0 <= i < |b.usage| ==> b.usage[i] <= b.usage[j]
    ensures After(c, use, allowed).inMemory[j] <==> Raise(c, use.section).usage[j] > 1
  {
    var b := Bring(Raise(c, use.section), use.section);
    var thresh := Threshold(b.usage);
    ThresholdZero(b.usage);
    if thresh == 0 {
      ResetExactly(b.inMemory, b.usage, thresh, allowed / 2, Trues(b.inMemory), j);
    }
  }

  // ------------------------------------------------------------------- the limit

  /** The counters of all sections in memory, but perhaps one, are zero. */
  predicate CalmBut(c: Cache, at: nat)
    requires c.Of(|c.usage|)
  {
    forall i :: 0 <= i < |c.usage| && c.inMemory[i] && i != at ==> c.usage[i] == 0
  }

  predicate Calm(c: Cache)
    requires c.Of(|c.usage|)
  {
    CalmBut(c, |c.usage|)
  }

  /** At most one section over the limit, and then only with every counter of a section
      in memory back at zero. */
  predicate Small(c: Cache, allowed: nat)
    requires c.Of(|c.usage|)
  {
    Trues(c.inMemory) <= allowed + 1 && (Trues(c.inMemory) == allowed + 1 ==> Calm(c))
  }

  /** How many more cleanups bring the cache within its limit. */
  function Excess(c: Cache, allowed: nat): (n: nat)
    requires c.Of(|c.usage|)
    ensures n == 0 <==> Small(c, allowed)
  {
    if Small(c, allowed) then 0 else if Calm(c) then 1 else 2
  }

  lemma {:induction false} TrueAt(flags: seq<bool>, i: nat, flag: bool)
    requires i < |flags|
    ensures Trues(flags[i := flag]) == Trues(flags) - (if flags[i] then 1 else 0) + if flag then 1 else 0
  {
    if i == 0 {
      assert flags[0 := flag][1..] == flags[1..];
    } else {
      assert flags[i := flag][1..] == flags[1..][i - 1 := flag];
      TrueAt(flags[1..], i - 1, flag);
    }
  }

  lemma {:induction false} OnlyTrueAt(flags: seq<bool>, at: nat)
    requires forall j :: 0 <= j < |flags| && flags[j] ==> j == at
    ensures Trues(flags) <= 1
  {
    if flags != [] {
      if at == 0 { OnlyTrueAt(flags[1..], |flags|); NoneTrue(flags[1..]); } else { OnlyTrueAt(flags[1..], at - 1); }
    }
  }

  lemma {:induction false} NoneTrue(flags: seq<bool>)
    requires forall j :: 0 <= j < |flags| ==> !flags[j]
    ensures Trues(flags) == 0
  {
    if flags != [] { NoneTrue(flags[1..]); }
  }

  /** A sweep counts what it drops. */
  lemma {:induction false} SweepDrops(c: Cache, thresh: nat, k: nat)
    requires c.Of(|c.usage|) && k <= |c.usage|
    ensures Trues(SweepTo(c, thresh, k).inMemory) == Trues(c.inMemory) - DroppedBelow(c.inMemory, c.usage, thresh, k)
  {
    var flags := SweepTo(c, thresh, k).inMemory;
    if k == 0 {
      assert flags == c.inMemory;
    } else {
      SweepDrops(c, thresh, k - 1);
      var before := SweepTo(c, thresh, k - 1).inMemory;
      assert flags == before[k - 1 := flags[k - 1]];
      TrueAt(before, k - 1, flags[k - 1]);
    }
  }

  /** A cleanup leaves half the limit in memory, or else has come to every section and
      kept those alone that were used more than once. */
  lemma TidyEnds(c: Cache, allowed: nat)
    requires c.Of(|c.usage|) && Trues(c.inMemory) > allowed
    ensures var c' := Tidy(c, allowed);
            && Trues(c'.inMemory) <= Trues(c.inMemory)
            && (Trues(c'.inMemory) <= allowed / 2
                || forall j :: 0 <= j < |c.usage| ==>
                     c'.usage[j] == 0 && (c'.inMemory[j] ==> c.inMemory[j] && c.usage[j] > 1))
  {
    var thresh, k := Threshold(c.usage), Turns(c, allowed);
    SweepDrops(c, thresh, k);
    if k < |c.usage| {
      ResetExactly(c.inMemory, c.usage, thresh, allowed / 2, Trues(c.inMemory), k);
    }
  }

  lemma RaisedAlone(c: Cache, use: Use)
    requires c.Of(|c.usage|) && use.section < |c.usage|
    ensures var b := Bring(Raise(c, use.section), use.section);
            && Trues(c.inMemory) <= Trues(b.inMemory) <= Trues(c.inMemory) + 1
            && (Calm(c) ==> CalmBut(b, use.section))
  {
    TrueAt(c.inMemory, use.section, true);
  }

  lemma CleanedCalm(b: Cache, at: nat, allowed: nat)
    requires b.Of(|b.usage|) && Trues(b.inMemory) > allowed && CalmBut(b, at)
    ensures Small(Tidy(b, allowed), allowed)
  {
    var c' := Tidy(b, allowed);
    TidyEnds(b, allowed);
    if Trues(c'.inMemory) > allowed / 2 { OnlyTrueAt(c'.inMemory, at); }
  }

  /** An operation that comes to the check of the limit takes the cache one cleanup
      nearer to its limit, and any operation keeps it within. */
  lemma OperationSettles(c: Cache, use: Use, allowed: nat)
    requires c.Of(|c.usage|) && use.section < |c.usage|
    ensures Excess(After(c, use, allowed), allowed)
            <= if EndsEarly(c, use) || Excess(c, allowed) == 0 then Excess(c, allowed) else Excess(c, allowed) - 1
  {
    var b := Bring(Raise(c, use.section), use.section);
    if !EndsEarly(c, use) {
      RaisedAlone(c, use);
      if Trues(b.inMemory) > allowed {
        TidyEnds(b, allowed);
        if Calm(c) { CleanedCalm(b, use.section, allowed); }
      }
    }
  }

  // ------------------------------------------------------------------ an example

  /** Sections 0 and 1 of three in memory, the counters so far n and 1. */
  function Two(n: nat): Cache {
    Cache([true, true, false], [true, true, false], [n, 1, 0])
  }

  lemma LookupCounts(n: nat)
    ensures After(Two(n), Use(0, false), 2) == Two(n + 1)
  {
    var flags := [true, true, false];
    assert flags[0 := true] == flags;
    assert flags[1..][1..] == [false] && flags[1..] == [true, false];
    assert Trues([false]) == 0 && Trues([true, false]) == 1 && Trues(flags) == 2;
  }

  lemma {:induction false} LookupsCount(n: nat)
    ensures AfterAll(Two(1), seq(n, i => Use(0, false)), 2) == Two(n + 1)
  {
    if n > 0 {
      LookupsCount(n - 1);
      LookupCounts(n);
      assert seq(n, i => Use(0, false))[..n - 1] == seq(n - 1, i => Use(0, false));
    }
  }

  lemma HotThreshold()
    ensures Threshold([5, 1, 1]) == 1
  {
    var usage := [5, 1, 1];
    assert usage[..2] == [5, 1] && usage[..2][..1] == [5] && usage[..2][..1][..0] == [];
    assert AtMost(usage, 1) == 2 && AtMost(usage, 2) == 2;
    assert MaxUsage(usage) == 5;
    assert Search(usage, 1, 1) == Search(usage, 1, 0);
  }

  /** Four lookups of section 0 save it: the cleanup that the first write to section 2
      brings about evicts the other two. */
  lemma HotSectionStays()
    ensures var uses := seq(4, i => Use(0, false)) + [Use(2, true)];
            AfterAll(Two(1), uses, 2) == Cache([true, false, false], [true, true, true], [0, 0, 0])
  {
    var uses := seq(4, i => Use(0, false)) + [Use(2, true)];
    LookupsCount(4);
    assert uses[..4] == seq(4, i => Use(0, false));
    WriteCleans();
  }

  lemma WriteCleans()
    ensures After(Two(5), Use(2, true), 2) == Cache([true, false, false], [true, true, true], [0, 0, 0])
  {
    var all := [true, true, true];
    assert Bring(Raise(Two(5), 2), 2) == Cache(all, all, [5, 1, 1]);
    ThreeTidied(Cache(all, all, [5, 1, 1]));
  }

  lemma ThreeTidied(b: Cache)
    requires b == Cache([true, true, true], [true, true, true], [5, 1, 1])
    ensures Tidy(b, 2) == Cache([true, false, false], [true, true, true], [0, 0, 0])
  {
    assert b.inMemory[1..] == [true, true] && b.inMemory[1..][1..] == [true] && Trues(b.inMemory) == 3;
    HotThreshold();
    HotTurns(b.inMemory, b.usage);
    ThreeSwept(b);
  }

  lemma ThreeSwept(b: Cache)
    requires b == Cache([true, true, true], [true, true, true], [5, 1, 1])
    ensures SweepTo(b, 1, 3) == Cache([true, false, false], [true, true, true], [0, 0, 0])
  {
  }

  lemma HotTurns(flags: seq<bool>, usage: seq<nat>)
    requires flags == [true, true, true] && usage == [5, 1, 1]
    ensures Reached(flags, usage, 1, 1, 0, 3) == 3
  {
    assert Reached(flags, usage, 1, 1, 2, 2) == 3;
  }
}
