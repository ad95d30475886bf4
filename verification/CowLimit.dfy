/** Sequences of mapping operations on a manager, and what a smaller cache limit does
    to a cache that is over it. */
module CowLimit {
  import opened Blocks
  import opened CowImage
  import opened CowManager
  import CowUsage

  datatype Use = Look(pos: nat) | Assign(pos: nat, val: Word)

  /** Writes always come to the check of the limit; reads do if they have a section. */
  function Writes(uses: seq<Use>): nat {
    if uses == [] then 0
    else Writes(uses[..|uses| - 1]) + if uses[|uses| - 1].Assign? then 1 else 0
  }

  function Less(a: nat, b: nat): nat { if a > b then a - b else 0 }

  function OnSection(use: Use, sectSize: nat): CowUsage.Use
    requires sectSize > 0
  {
    CowUsage.Use(use.pos / sectSize, use.Assign?)
  }

  function OnSections(uses: seq<Use>, sectSize: nat): (on: seq<CowUsage.Use>)
    requires sectSize > 0
    ensures |on| == |uses|
  {
    if uses == [] then []
    else OnSections(uses[..|uses| - 1], sectSize) + [OnSection(uses[|uses| - 1], sectSize)]
  }

  /** The operations so far, and one more. */
  lemma OneMore(c: CowUsage.Cache, uses: seq<Use>, i: nat, sectSize: nat, allowed: nat)
    requires i < |uses| && sectSize > 0 && c.Of(|c.usage|)
    requires CowUsage.Within(OnSections(uses[..i], sectSize), |c.usage|) && uses[i].pos / sectSize < |c.usage|
    ensures var next := OnSections(uses[..i + 1], sectSize);
            && CowUsage.Within(next, |c.usage|)
            && CowUsage.AfterAll(c, next, allowed)
               == CowUsage.After(CowUsage.AfterAll(c, OnSections(uses[..i], sectSize), allowed),
                                 OnSection(uses[i], sectSize), allowed)
  {
    var now, next := OnSections(uses[..i], sectSize), OnSections(uses[..i + 1], sectSize);
    assert uses[..i + 1][..i] == uses[..i];
    assert next == now + [OnSection(uses[i], sectSize)] && next[..i] == now;
  }

  method UseOne(cm: Manager, use: Use) returns (ok: bool, ghost checked: bool)
    requires cm.Valid() && use.pos < cm.Capacity()
    modifies cm`resident, cm`peak, cm`changed, cm.hasData, cm.usage, cm.mappings, cm.file`image, cm.file`trace
    ensures cm.Valid() && (use.Assign? ==> checked) && (use.Look? ==> checked == old(cm.Backed(use.pos)))
    ensures ok ==> cm.Excess() <= Less(old(cm.Excess()), if checked then 1 else 0)
    ensures ok ==> cm.Used(old(cm.Cache()), use.pos, use.Assign?)
    ensures cm.file.steady ==> ok
  {
    checked := use.Assign? || cm.Backed(use.pos);
    if use.Assign? {
      ok := cm.WriteMapping(use.pos, use.val);
    } else {
      var val;
      ok, val := cm.ReadMapping(use.pos);
    }
  }

  /** The cache has been used by these operations, cleanups included. */
  ghost predicate UsedBy(cm: Manager, was: CowUsage.Cache, uses: seq<Use>)
    requires cm.Valid()
    reads cm, cm.hasData, cm.usage, cm.mappings, cm.file
  {
    && was.Of(cm.total) && CowUsage.Within(OnSections(uses, cm.sectSize), cm.total)
    && cm.Cache() == CowUsage.AfterAll(was, OnSections(uses, cm.sectSize), cm.allowed)
  }

  method UseNext(cm: Manager, uses: seq<Use>, i: nat, ghost was: CowUsage.Cache) returns (ok: bool, ghost checked: bool)
    requires cm.Valid() && i < |uses| && uses[i].pos < cm.Capacity() && UsedBy(cm, was, uses[..i])
    modifies cm`resident, cm`peak, cm`changed, cm.hasData, cm.usage, cm.mappings, cm.file`image, cm.file`trace
    ensures cm.Valid() && (uses[i].Assign? ==> checked)
    ensures ok ==> cm.Excess() <= Less(old(cm.Excess()), if checked then 1 else 0) && UsedBy(cm, was, uses[..i + 1])
    ensures cm.file.steady ==> ok
  {
    ok, checked := UseOne(cm, uses[i]);
    if ok { OneMore(was, uses, i, cm.sectSize, cm.allowed); }
  }

  /** Any sequence of mapping operations; what it does to the counters and to which
      sections are in memory is `CowUsage.AfterAll`. */
  method UseAll(cm: Manager, uses: seq<Use>) returns (ok: bool, ghost checks: nat)
    requires cm.Valid() && forall i :: 0 <= i < |uses| ==> uses[i].pos < cm.Capacity()
    modifies cm`resident, cm`peak, cm`changed, cm.hasData, cm.usage, cm.mappings, cm.file`image, cm.file`trace
    ensures cm.Valid()
    ensures ok ==> checks >= Writes(uses) && cm.Excess() <= Less(old(cm.Excess()), checks)
    ensures ok ==> UsedBy(cm, old(cm.Cache()), uses)
    ensures cm.file.steady ==> ok
  {
    ok, checks := true, 0;
    ghost var was := cm.Cache();
    for i := 0 to |uses|
      invariant ok && cm.Valid()
      invariant UsedBy(cm, was, uses[..i])
      invariant checks >= Writes(uses[..i]) && cm.Excess() <= Less(old(cm.Excess()), checks)
    {
      assert uses[..i + 1][..i] == uses[..i];
      ghost var checked;
      ok, checked := UseNext(cm, uses, i, was);
      if !ok { return; }
      checks := checks + if checked then 1 else 0;
    }
    assert uses[..|uses|] == uses;
  }

  /** After the limit shrinks, two mapping operations that come to the check of the
      limit, with any others between them, bring the cache within the new bound. */
  method ShrinkSettles(cm: Manager, cacheBytes: nat, uses: seq<Use>) returns (ok: bool, ghost checks: nat)
    requires cm.Valid() && forall i :: 0 <= i < |uses| ==> uses[i].pos < cm.Capacity()
    modifies cm`allowed, cm`resident, cm`peak, cm`changed, cm.hasData, cm.usage, cm.mappings,
             cm.file`image, cm.file`trace
    ensures cm.Valid() && cm.allowed == AllowedSections(cacheBytes, cm.total)
    ensures ok ==> checks >= Writes(uses)
    ensures ok && checks >= 2 ==> cm.Bounded()
    ensures cm.file.steady ==> ok
  {
    cm.ModifyCacheSize(cacheBytes);
    ok, checks := UseAll(cm, uses);
    cm.ForgetPeak();
  }

  /** After any sequence of successful operations on a cache whose counters started at
      zero, a section's counter is the number of its uses since its last reset. */
  method CountersCount(cm: Manager, uses: seq<Use>, j: nat) returns (ok: bool)
    requires cm.Valid() && j < cm.total && forall i :: 0 <= i < |uses| ==> uses[i].pos < cm.Capacity()
    requires forall i :: 0 <= i < cm.total ==> cm.usage[i] == 0
    modifies cm`resident, cm`peak, cm`changed, cm.hasData, cm.usage, cm.mappings, cm.file`image, cm.file`trace
    ensures cm.Valid() && old(cm.Cache()).Of(cm.total)
    ensures ok ==>
      && CowUsage.Within(OnSections(uses, cm.sectSize), cm.total)
      && cm.usage[j]
         == CowUsage.UsesOf(CowUsage.Recent(old(cm.Cache()), OnSections(uses, cm.sectSize), cm.allowed, j), j)
    ensures cm.file.steady ==> ok
  {
    ghost var was := cm.Cache();
    ghost var checks;
    ok, checks := UseAll(cm, uses);
    if ok { CowUsage.CounterIsUses(was, OnSections(uses, cm.sectSize), cm.allowed, j); }
  }
}
