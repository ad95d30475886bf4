/** Which sections a cache cleanup drops: the search for a usage threshold, and
    the sweep that stops once enough sections are gone. */
module CowSweep {
  /** Sections used at most t times. */
  function AtMost(usage: seq<nat>, t: nat): (n: nat)
    ensures n <= |usage|
  {
    if usage == [] then 0
    else AtMost(usage[..|usage| - 1], t) + if usage[|usage| - 1] <= t then 1 else 0
  }

  function MaxUsage(usage: seq<nat>): (m: nat)
    ensures forall j :: 0 <= j < |usage| ==> usage[j] <= m
    ensures m == 0 || exists j :: 0 <= j < |usage| && usage[j] == m
  {
    if usage == [] then 0 else
    var rest, last := MaxUsage(usage[..|usage| - 1]), usage[|usage| - 1];
    assert forall j :: 0 <= j < |usage| - 1 ==> usage[..|usage| - 1][j] == usage[j];
    if last > rest then last else rest
  }

  /** Steps that halve, towards the value with as many sections above as below. */
  function Search(usage: seq<nat>, thresh: nat, granularity: nat): nat
    requires granularity <= thresh
    decreases granularity
  {
    if granularity == 0 then thresh else
    var half, less := granularity / 2, AtMost(usage, thresh);
    var greater := |usage| - less;
    if greater > less then Search(usage, thresh + half, half)
    else if greater < less then Search(usage, thresh - half, half)
    else thresh
  }

  function Threshold(usage: seq<nat>): nat {
    Search(usage, MaxUsage(usage) / 2, MaxUsage(usage) / 2)
  }

  // ------------------------------------------------------------------- median

  lemma {:induction false} AtMostGrows(usage: seq<nat>, t: nat, u: nat)
    requires t <= u
    ensures AtMost(usage, t) <= AtMost(usage, u)
  {
    if usage != [] { AtMostGrows(usage[..|usage| - 1], t, u); }
  }

  lemma {:induction false} AllAtMost(usage: seq<nat>, t: nat)
    requires forall j :: 0 <= j < |usage| ==> usage[j] <= t
    ensures AtMost(usage, t) == |usage|
  {
    if usage != [] { AllAtMost(usage[..|usage| - 1], t); }
  }

  /** The least value that at least half of the sections do not exceed. */
  predicate IsMedian(usage: seq<nat>, m: nat) {
    2 * AtMost(usage, m) >= |usage| && (m == 0 || 2 * AtMost(usage, m - 1) < |usage|)
  }

  predicate Near(a: int, b: int, d: int) { -d <= a - b <= d }

  function Halvings(g: nat): nat { if g == 0 then 0 else 1 + Halvings(g / 2) }

  lemma {:induction false} SearchNear(usage: seq<nat>, thresh: nat, granularity: nat, m: nat, slack: nat)
    requires IsMedian(usage, m) && granularity <= thresh && Near(m, thresh, granularity + slack)
    ensures var t := Search(usage, thresh, granularity);
            2 * AtMost(usage, t) == |usage| || Near(m, t, slack + Halvings(granularity))
    decreases granularity
  {
    if granularity > 0 {
      var half, less := granularity / 2, AtMost(usage, thresh);
      if 2 * less < |usage| {
        if m <= thresh { AtMostGrows(usage, m, thresh); }
        SearchNear(usage, thresh + half, half, m, slack + 1);
      } else if 2 * less > |usage| {
        if m > thresh { AtMostGrows(usage, thresh, m - 1); }
        SearchNear(usage, thresh - half, half, m, slack + 1);
      }
    }
  }

  lemma MedianBelowMax(usage: seq<nat>, m: nat)
    requires IsMedian(usage, m)
    ensures m <= MaxUsage(usage)
  {
    var max := MaxUsage(usage);
    if m > max {
      AllAtMost(usage, max);
      AtMostGrows(usage, max, m - 1);
    }
  }

  /** The threshold splits the sections evenly, or misses the median by no more
      than the number of halvings of the largest usage. */
  lemma ThresholdNearMedian(usage: seq<nat>, m: nat)
    requires IsMedian(usage, m)
    ensures 2 * AtMost(usage, Threshold(usage)) == |usage|
            || Near(m, Threshold(usage), 1 + Halvings(MaxUsage(usage) / 2))
  {
    MedianBelowMax(usage, m);
    var half := MaxUsage(usage) / 2;
    assert Near(m, half, half + 1);
    SearchNear(usage, half, half, m, 1);
  }

  lemma {:induction false} SearchBelow(usage: seq<nat>, thresh: nat, granularity: nat, max: nat)
    requires granularity <= thresh && thresh + granularity <= max && 0 < thresh < max
    ensures 0 < Search(usage, thresh, granularity) < max
    decreases granularity
  {
    if granularity > 0 {
      var half, less := granularity / 2, AtMost(usage, thresh);
      if 2 * less < |usage| {
        SearchBelow(usage, thresh + half, half, max);
      } else if 2 * less > |usage| {
        SearchBelow(usage, thresh - half, half, max);
      }
    }
  }

  /** The threshold is zero, which flushes the whole cache, exactly when no section
      was used more than once; otherwise the most used sections stay above it. */
  lemma ThresholdZero(usage: seq<nat>)
    ensures Threshold(usage) == 0 <==> forall j :: 0 <= j < |usage| ==> usage[j] <= 1
    ensures Threshold(usage) > 0 ==> exists j :: 0 <= j < |usage| && usage[j] > Threshold(usage)
  {
    var max := MaxUsage(usage);
    if max >= 2 { SearchBelow(usage, max / 2, max / 2, max); }
  }

  // -------------------------------------------------------------------- sweep

  predicate Unwanted(usage: nat, thresh: nat) { thresh == 0 || usage <= thresh }

  function Drop(inMemory: bool, usage: nat, thresh: nat): int {
    if inMemory && Unwanted(usage, thresh) then 1 else 0
  }

  /** Where the sweep stops: at the end, or once `keep` sections are left. */
  function Reached(inMemory: seq<bool>, usage: seq<nat>, thresh: nat, keep: nat, i: nat, resident: int): (k: nat)
    requires |inMemory| == |usage| && i <= |usage|
    ensures i <= k <= |usage|
    decreases |usage| - i
  {
    if i == |usage| || (thresh > 0 && resident <= keep) then i
    else Reached(inMemory, usage, thresh, keep, i + 1, resident - Drop(inMemory[i], usage[i], thresh))
  }

  function DroppedBelow(inMemory: seq<bool>, usage: seq<nat>, thresh: nat, n: nat): (d: int)
    requires |inMemory| == |usage| && n <= |usage|
    ensures d >= 0
  {
    if n == 0 then 0
    else DroppedBelow(inMemory, usage, thresh, n - 1) + Drop(inMemory[n - 1], usage[n - 1], thresh)
  }

  lemma {:induction false} DroppedGrows(inMemory: seq<bool>, usage: seq<nat>, thresh: nat, i: nat, j: nat)
    requires |inMemory| == |usage| && i <= j <= |usage|
    ensures DroppedBelow(inMemory, usage, thresh, i) <= DroppedBelow(inMemory, usage, thresh, j)
  {
    if i < j { DroppedGrows(inMemory, usage, thresh, i, j - 1); }
  }

  lemma {:induction false} ReachedFrom(inMemory: seq<bool>, usage: seq<nat>, thresh: nat, keep: nat, i: nat,
                                       resident: int, j: nat)
    requires |inMemory| == |usage| && i <= j < |usage|
    ensures Reached(inMemory, usage, thresh, keep, i, resident - DroppedBelow(inMemory, usage, thresh, i)) > j
            <==> thresh == 0 || resident - DroppedBelow(inMemory, usage, thresh, j) > keep
    decreases j - i
  {
    DroppedGrows(inMemory, usage, thresh, i, j);
    if i < j { ReachedFrom(inMemory, usage, thresh, keep, i + 1, resident, j); }
  }

  /** A section's counter is reset if and only if the cache is flushed whole, or
      more than `keep` sections are still in memory when its turn comes. */
  lemma ResetExactly(inMemory: seq<bool>, usage: seq<nat>, thresh: nat, keep: nat, resident: nat, j: nat)
    requires |inMemory| == |usage| && j < |usage|
    ensures Reached(inMemory, usage, thresh, keep, 0, resident) > j
            <==> thresh == 0 || resident - DroppedBelow(inMemory, usage, thresh, j) > keep
  {
    ReachedFrom(inMemory, usage, thresh, keep, 0, resident, j);
  }

  /** A sweep that stopped where its condition first failed stopped there. */
  lemma StopsAt(inMemory: seq<bool>, usage: seq<nat>, thresh: nat, keep: nat, resident: nat, k: nat)
    requires |inMemory| == |usage| && k <= |usage|
    requires k == |usage| || (thresh > 0 && resident - DroppedBelow(inMemory, usage, thresh, k) <= keep)
    requires k == 0 || thresh == 0 || resident - DroppedBelow(inMemory, usage, thresh, k - 1) > keep
    ensures Reached(inMemory, usage, thresh, keep, 0, resident) == k
  {
    if k < |usage| { ResetExactly(inMemory, usage, thresh, keep, resident, k); }
    if k > 0 { ResetExactly(inMemory, usage, thresh, keep, resident, k - 1); }
  }

  /** A sweep in front of section i that has not had reason to stop before. */
  predicate OnCourse(inMemory: seq<bool>, usage: seq<nat>, thresh: nat, keep: nat, before: nat, i: nat, resident: int)
    requires |inMemory| == |usage| && i <= |usage|
  {
    && resident == before - DroppedBelow(inMemory, usage, thresh, i)
    && (i == 0 || thresh == 0 || before - DroppedBelow(inMemory, usage, thresh, i - 1) > keep)
  }

  lemma CourseGoesOn(inMemory: seq<bool>, usage: seq<nat>, thresh: nat, keep: nat, before: nat, i: nat, resident: int)
    requires |inMemory| == |usage| && i < |usage| && OnCourse(inMemory, usage, thresh, keep, before, i, resident)
    requires thresh == 0 || resident > keep
    ensures OnCourse(inMemory, usage, thresh, keep, before, i + 1, resident - Drop(inMemory[i], usage[i], thresh))
  {
  }

  lemma CourseEnds(inMemory: seq<bool>, usage: seq<nat>, thresh: nat, keep: nat, before: nat, i: nat, resident: int)
    requires |inMemory| == |usage| && i <= |usage| && OnCourse(inMemory, usage, thresh, keep, before, i, resident)
    requires i == |usage| || (thresh > 0 && resident <= keep)
    ensures Reached(inMemory, usage, thresh, keep, 0, before) == i && resident <= before
  {
    StopsAt(inMemory, usage, thresh, keep, before, i);
  }

  /** A cleanup that leaves a counter alone: of three sections in memory, with a
      limit of two, two go and the sweep ends in front of the third. */
  lemma CounterSurvives()
    ensures var usage := [1, 1, 5];
            && Threshold(usage) == 1
            && Reached([true, true, true], usage, Threshold(usage), 1, 0, 3) == 2 && usage[2] > 0
  {
    var usage := [1, 1, 5];
    assert usage[..2] == [1, 1] && usage[..2][..1] == [1] && usage[..2][..1][..0] == [];
    assert AtMost(usage, 1) == 2 && AtMost(usage, 2) == 2;
    assert MaxUsage(usage) == 5;
    assert Search(usage, 1, 1) == Search(usage, 1, 0);
    assert Reached([true, true, true], usage, 1, 1, 1, 2) == 2;
  }
}
