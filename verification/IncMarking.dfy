/** Incremental mode: which blocks of the index end up marked. */
module IncMarking {
  import opened Blocks
  import opened CowImage
  import opened CowManager
  import opened IncTracing

  /** Marks the blocks of a sector set with the filler value; every other entry
      of the index keeps its value, and the count of changed blocks stays exact. A
      failure leaves the first `done` blocks marked. */
  method IncHandleSset(cm: Manager, sset: SectorSet) returns (ok: bool, ghost done: nat)
    requires cm.Valid() && EndBlock(sset.sect, sset.len) <= cm.Capacity()
    modifies cm`resident, cm`peak, cm`changed, cm.hasData, cm.usage, cm.mappings, cm.file`image, cm.file`trace
    ensures cm.Valid() && (old(cm.CountOk()) ==> cm.CountOk())
    ensures ok && old(cm.Bounded()) ==> cm.Bounded()
    ensures forall p: nat :: p < cm.Capacity() ==>
              && InView(cm.View(), cm.sectSize, p) && InView(old(cm.View()), cm.sectSize, p)
              && At(cm.View(), cm.sectSize, p)
                 == if Touches(sset.sect, sset.len, p) && (ok || p < FirstBlock(sset.sect) + done) then 1
                    else At(old(cm.View()), cm.sectSize, p)
    ensures cm.file.steady ==> ok
  {
    var first, end := FirstBlock(sset.sect), EndBlock(sset.sect, sset.len);
    ok, done := true, 0;
    ghost var was := cm.View();
    var b := first;
    AllInside(cm);
    while b < end
      invariant b == first + done && (b <= end || b == first) && ok && cm.Valid()
      invariant old(cm.CountOk()) ==> cm.CountOk()
      invariant old(cm.Bounded()) ==> cm.Bounded()
      invariant SameBut(was, cm.View(), cm.sectSize, cm.Capacity(), first, b)
    {
      ghost var before := cm.View();
      ok := cm.WriteMapping(b, 1);
      OneMore(was, before, cm.sectSize, cm.Capacity(), first, b);
      if ok || cm.View() != before { done := done + 1; }
      if !ok { return; }
      b := b + 1;
    }
  }

  /** Entries of [first, next) are fillers, the others unchanged. */
  ghost predicate SameBut(was: seq<Section>, view: seq<Section>, sectSize: nat, capacity: nat, first: nat, next: nat) {
    forall p: nat :: p < capacity ==>
      && InView(view, sectSize, p) && InView(was, sectSize, p)
      && At(view, sectSize, p) == if first <= p < next then 1 else At(was, sectSize, p)
  }

  lemma AllInside(cm: Manager)
    requires cm.Valid()
    ensures forall p: nat :: p < cm.Capacity() ==> InView(cm.View(), cm.sectSize, p)
  {
    forall p: nat | p < cm.Capacity()
      ensures InView(cm.View(), cm.sectSize, p)
    {
      cm.InsideView(p);
    }
  }

  lemma OneMore(was: seq<Section>, view: seq<Section>, sectSize: nat, capacity: nat, first: nat, b: nat)
    requires first <= b < capacity && SameBut(was, view, sectSize, capacity, first, b)
    ensures InView(view, sectSize, b) && SameBut(was, Put(view, sectSize, b, 1), sectSize, capacity, first, b + 1)
  {
    forall p: nat | p < capacity
      ensures InView(Put(view, sectSize, b, 1), sectSize, p)
      ensures At(Put(view, sectSize, b, 1), sectSize, p) == if first <= p < b + 1 then 1 else At(was, sectSize, p)
    {
      PutThenAt(view, sectSize, b, 1, p);
    }
  }

  /** Entries of the blocks of these sector sets are fillers, the others unchanged. */
  ghost predicate Filled(was: seq<Section>, view: seq<Section>, sectSize: nat, capacity: nat, ssets: seq<SectorSet>) {
    forall p: nat :: p < capacity ==>
      && InView(view, sectSize, p) && InView(was, sectSize, p)
      && At(view, sectSize, p) == if BlockReported(ssets, p) then 1 else At(was, sectSize, p)
  }

  lemma OneMoreSet(was: seq<Section>, before: seq<Section>, view: seq<Section>, sectSize: nat, capacity: nat,
                   ssets: seq<SectorSet>, i: nat)
    requires i < |ssets| && Filled(was, before, sectSize, capacity, ssets[..i])
    requires forall p: nat :: p < capacity ==>
               && InView(view, sectSize, p) && InView(before, sectSize, p)
               && At(view, sectSize, p)
                  == if Touches(ssets[i].sect, ssets[i].len, p) then 1 else At(before, sectSize, p)
    ensures Filled(was, view, sectSize, capacity, ssets[..i + 1])
  {
    forall p: nat
      ensures BlockReported(ssets[..i + 1], p)
              <==> BlockReported(ssets[..i], p) || Touches(ssets[i].sect, ssets[i].len, p)
    {
      if BlockReported(ssets[..i], p) {
        var k :| 0 <= k < i && Touches(ssets[..i][k].sect, ssets[..i][k].len, p);
        assert ssets[..i + 1][k] == ssets[k];
      }
      if Touches(ssets[i].sect, ssets[i].len, p) { assert ssets[..i + 1][i] == ssets[i]; }
    }
  }

  /** One sector set of several. */
  method MarkNext(cm: Manager, ssets: seq<SectorSet>, i: nat, ghost was: seq<Section>) returns (ok: bool)
    requires cm.Valid() && i < |ssets| && EndBlock(ssets[i].sect, ssets[i].len) <= cm.Capacity()
    requires Filled(was, cm.View(), cm.sectSize, cm.Capacity(), ssets[..i])
    modifies cm`resident, cm`peak, cm`changed, cm.hasData, cm.usage, cm.mappings, cm.file`image, cm.file`trace
    ensures cm.Valid() && (old(cm.CountOk()) ==> cm.CountOk())
    ensures ok && old(cm.Bounded()) ==> cm.Bounded()
    ensures ok ==> Filled(was, cm.View(), cm.sectSize, cm.Capacity(), ssets[..i + 1])
    ensures cm.file.steady ==> ok
  {
    ghost var done;
    ghost var before := cm.View();
    ok, done := IncHandleSset(cm, ssets[i]);
    if ok { OneMoreSet(was, before, cm.View(), cm.sectSize, cm.Capacity(), ssets, i); }
  }

  /** The index after a write changed what `ChangesBlock` says, and nothing else. */
  ghost predicate MarkedFor(was: seq<Section>, view: seq<Section>, sectSize: nat, capacity: nat,
                            zeroes: bool, segs: seq<Segment>, from: nat, size: nat) {
    forall p: nat :: p < capacity ==>
      && InView(view, sectSize, p) && InView(was, sectSize, p)
      && At(view, sectSize, p) == if ChangesBlock(zeroes, segs, from, size, p) then 1 else At(was, sectSize, p)
  }

  lemma FilledIsMarked(was: seq<Section>, view: seq<Section>, sectSize: nat, capacity: nat, ssets: seq<SectorSet>,
                       zeroes: bool, segs: seq<Segment>, from: nat, size: nat)
    requires Filled(was, view, sectSize, capacity, ssets)
    requires zeroes ==> ssets == [SectorSet(from, size)]
    requires !zeroes ==> NoEmpty(ssets) && forall t: nat :: Reported(ssets, t) <==> Foreign(segs, from, t)
    ensures MarkedFor(was, view, sectSize, capacity, zeroes, segs, from, size)
  {
    forall p: nat
      ensures BlockReported(ssets, p) <==> ChangesBlock(zeroes, segs, from, size, p)
    {
      ReportedIsChanged(ssets, zeroes, segs, from, size, p);
    }
  }

  /** A write in incremental mode, from interception to the index: on a device of
      whole blocks, every block it changes outside the cow file is inside the index
      and marked, and no other entry changes. */
  method MarkWrite(cm: Manager, sector: nat, off: nat, size: nat, zeroes: bool, segs: seq<Segment>,
                   ghost deviceSectors: nat) returns (ok: bool)
    requires cm.Valid() && off <= sector && size > 0 && (!zeroes ==> Length(segs) == size)
    requires deviceSectors % 8 == 0 && deviceSectors / 8 <= cm.Capacity() && sector - off + size <= deviceSectors
    modifies cm`resident, cm`peak, cm`changed, cm.hasData, cm.usage, cm.mappings, cm.file`image, cm.file`trace
    ensures cm.Valid() && (old(cm.CountOk()) ==> cm.CountOk())
    ensures ok && old(cm.Bounded()) ==> cm.Bounded()
    ensures ok ==>
      MarkedFor(old(cm.View()), cm.View(), cm.sectSize, cm.Capacity(), zeroes, segs, sector - off, size)
    ensures cm.file.steady ==> ok
  {
    ghost var was := cm.View();
    var ssets, failed := IncTraceBio(sector, off, size, zeroes, segs, cm.file.steady);
    if failed { return false; }
    forall i | 0 <= i < |ssets|
      ensures EndBlock(ssets[i].sect, ssets[i].len) <= cm.Capacity()
    {
      ReportedSetsFit(ssets, zeroes, segs, sector - off, size, deviceSectors, cm.Capacity(), i);
    }
    ok := MarkAll(cm, ssets);
    if ok { FilledIsMarked(was, cm.View(), cm.sectSize, cm.Capacity(), ssets, zeroes, segs, sector - off, size); }
  }

  method MarkAll(cm: Manager, ssets: seq<SectorSet>) returns (ok: bool)
    requires cm.Valid() && forall i :: 0 <= i < |ssets| ==> EndBlock(ssets[i].sect, ssets[i].len) <= cm.Capacity()
    modifies cm`resident, cm`peak, cm`changed, cm.hasData, cm.usage, cm.mappings, cm.file`image, cm.file`trace
    ensures cm.Valid() && (old(cm.CountOk()) ==> cm.CountOk())
    ensures ok && old(cm.Bounded()) ==> cm.Bounded()
    ensures ok ==> Filled(old(cm.View()), cm.View(), cm.sectSize, cm.Capacity(), ssets)
    ensures cm.file.steady ==> ok
  {
    ghost var was := cm.View();
    ok := true;
    AllInside(cm);
    for i := 0 to |ssets|
      invariant cm.Valid() && (old(cm.CountOk()) ==> cm.CountOk())
      invariant old(cm.Bounded()) ==> cm.Bounded()
      invariant ok && Filled(was, cm.View(), cm.sectSize, cm.Capacity(), ssets[..i])
    {
      ok := MarkNext(cm, ssets, i, was);
      if !ok { return; }
    }
    assert ssets[..|ssets|] == ssets;
  }
}
