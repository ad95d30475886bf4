/** Tracing one intercepted write in snapshot mode: read clones that tile the
    write's blocks, the references they hold, and what their completion restores. */
module CloneTiling {
  import opened Blocks

  const PAGE_BYTES := 4096
  const MAX_PAGES := 256

  class CloneBio {
    var sector: nat
    var bytes: nat
    var write: bool

    constructor (sector: nat, bytes: nat)
      ensures this.sector == sector && this.bytes == bytes && !write
    {
      this.sector, this.bytes, this.write := sector, bytes, false;
    }
  }

  /** Where a clone was when it was made. */
  datatype SectorMap = SectorMap(clone: CloneBio, sect: nat, size: nat)

  class Params {
    var refs: nat
    var maps: seq<SectorMap>
    var releases: nat  // times the original write was put on the release queue

    constructor ()
      ensures refs == 1 && maps == [] && releases == 0
    {
      refs, maps, releases := 1, [], 0;
    }

    method Get()
      modifies this`refs
      ensures refs == old(refs) + 1
    {
      refs := refs + 1;
    }

    method Put()
      requires refs > 0
      modifies this`refs, this`releases
      ensures refs == old(refs) - 1
      ensures releases == old(releases) + if refs == 0 then 1 else 0
    {
      refs := refs - 1;
      if refs == 0 { releases := releases + 1; }
    }

    method Add(clone: CloneBio, plenty: bool) returns (ok: bool)
      modifies this`maps
      ensures plenty ==> ok
      ensures maps == if ok then old(maps) + [SectorMap(clone, clone.sector, clone.bytes)] else old(maps)
    {
      ok := *;
      ok := ok || plenty;
      if ok { maps := maps + [SectorMap(clone, clone.sector, clone.bytes)]; }
    }

    /** Makes a completed clone a write of the blocks it read, wherever its
        iterator stands: the sector map has where it began and how long it was. */
    method Restore(clone: CloneBio, off: nat, ghost k: nat)
      requires k < |maps| && maps[k].clone == clone && off <= maps[k].sect
      requires forall i :: 0 <= i < |maps| && i != k ==> maps[i].clone != clone
      modifies clone
      ensures clone.write && clone.sector == maps[k].sect - off && clone.bytes == maps[k].size
    {
      clone.write := true;
      var i := 0;
      while i < |maps| && maps[i].clone != clone
        invariant i <= k && clone.write
      {
        i := i + 1;
      }
      if i < |maps| { clone.sector, clone.bytes := maps[i].sect - off, maps[i].size; }
    }
  }

  // ------------------------------------------------------------------- tiling

  function RoundDown(x: nat): nat { x / 8 * 8 }
  function RoundUp(x: nat): nat { (x + 7) / 8 * 8 }

  predicate WholePages(bytes: nat) {
    0 < bytes <= MAX_PAGES * PAGE_BYTES && bytes % PAGE_BYTES == 0
  }

  /** Clones of whole pages, up to as many as a bio takes, each starting where the
      last one ended. */
  predicate Tiles(maps: seq<SectorMap>, from: nat, to: nat) {
    if maps == [] then from == to
    else
      && maps[0].sect == from && WholePages(maps[0].size)
      && Tiles(maps[1..], from + maps[0].size / 512, to)
  }

  lemma {:induction false} TilesAdd(maps: seq<SectorMap>, from: nat, to: nat, m: SectorMap)
    requires Tiles(maps, from, to) && m.sect == to && WholePages(m.size)
    ensures Tiles(maps + [m], from, to + m.size / 512)
  {
    if maps == [] {
      assert (maps + [m])[1..] == [];
    } else {
      assert (maps + [m])[1..] == maps[1..] + [m];
      TilesAdd(maps[1..], from + maps[0].size / 512, to, m);
    }
  }

  lemma {:induction false} TilesStayAbove(maps: seq<SectorMap>, from: nat, to: nat)
    requires Tiles(maps, from, to)
    ensures from <= to && forall i :: 0 <= i < |maps| ==> from <= maps[i].sect
  {
    if maps != [] {
      TilesStayAbove(maps[1..], from + maps[0].size / 512, to);
      assert maps == [maps[0]] + maps[1..];
    }
  }

  /** How many completed clones carry a page of this block. */
  function Carriers(maps: seq<SectorMap>, off: nat, block: nat): nat {
    if maps == [] then 0
    else
      (if off <= maps[0].sect && Touches(maps[0].sect - off, maps[0].size / 512, block) then 1 else 0)
      + Carriers(maps[1..], off, block)
  }

  /** Tiles carry each block of their range once and no other block. */
  lemma {:induction false} TilesCarryOnce(maps: seq<SectorMap>, off: nat, from: nat, to: nat, block: nat)
    requires Tiles(maps, off + from * 8, off + to * 8)
    ensures from <= to
    ensures Carriers(maps, off, block) == if from <= block < to then 1 else 0
  {
    TilesStayAbove(maps, off + from * 8, off + to * 8);
    if maps != [] {
      var next := from + maps[0].size / PAGE_BYTES;
      assert off + from * 8 + maps[0].size / 512 == off + next * 8;
      TilesCarryOnce(maps[1..], off, next, to, block);
    }
  }

  /** The clones of a write carry exactly the blocks it touches, once each. */
  lemma WriteBlocksCarriedOnce(maps: seq<SectorMap>, off: nat, sector: nat, sectors: nat, block: nat)
    requires off <= sector && sectors > 0
    requires Tiles(maps, RoundDown(sector - off) + off, RoundUp(sector + sectors - off) + off)
    ensures Carriers(maps, off, block) == if Touches(sector - off, sectors, block) then 1 else 0
  {
    TilesCarryOnce(maps, off, (sector - off) / 8, (sector + sectors - off + 7) / 8, block);
  }

  // ------------------------------------------------------------------ tracing

  /** One clone of at most `pages` pages, holding a reference; or nothing. */
  method MakeReadClone(p: Params, sect: nat, pages: nat, plenty: bool) returns (clone: CloneBio?, bytes: nat)
    requires pages > 0
    modifies p`refs
    ensures plenty ==> clone != null
    ensures clone == null ==> bytes == 0 && p.refs == old(p.refs)
    ensures clone != null ==>
      && fresh(clone) && clone.sector == sect && clone.bytes == bytes && !clone.write
      && WholePages(bytes) && bytes <= pages * PAGE_BYTES
      && p.refs == old(p.refs) + 1
  {
    var actual := if pages > MAX_PAGES then MAX_PAGES else pages;
    var ok: bool := *;
    if !ok && !plenty { return null, 0; }
    // the queue accepts some of the pages, at least one
    var i := 1;
    while i < actual
      invariant 1 <= i <= actual
    {
      var more: bool := *;
      if !more { break; }
      i := i + 1;
    }
    bytes := i * PAGE_BYTES;
    clone := new CloneBio(sect, bytes);
    p.Get();
  }

  /** The state of a write being traced. */
  ghost predicate Tracing(p: Params, clones: seq<CloneBio>, from: nat, to: nat)
    reads p, clones
  {
    && p.refs == 1 + |clones| && p.releases == 0
    && Mapped(p, clones)
    && Tiles(p.maps, from, to)
  }

  /** Distinct clones, each with its own sector map entry. */
  ghost predicate Mapped(p: Params, clones: seq<CloneBio>)
    reads p, clones
  {
    && |p.maps| == |clones|
    && (forall i :: 0 <= i < |clones| ==> p.maps[i] == SectorMap(clones[i], clones[i].sector, clones[i].bytes))
    && (forall i, j :: 0 <= i < j < |clones| ==> clones[i] != clones[j])
  }

  lemma PagesInSectors(bytes: nat, pages: nat)
    requires WholePages(bytes) && bytes <= pages * PAGE_BYTES
    ensures bytes / 512 == bytes / PAGE_BYTES * 8 && 0 < bytes / PAGE_BYTES <= pages
  {
  }

  /** One more clone is traced once it has its entry in the sector map. */
  lemma TracingAdd(p: Params, clones: seq<CloneBio>, clone: CloneBio, maps: seq<SectorMap>, from: nat, to: nat)
    requires |maps| == |clones| && p.maps == maps + [SectorMap(clone, to, clone.bytes)] && clone.sector == to
    requires WholePages(clone.bytes) && clone !in clones
    requires forall i :: 0 <= i < |clones| ==> maps[i] == SectorMap(clones[i], clones[i].sector, clones[i].bytes)
    requires forall i, j :: 0 <= i < j < |clones| ==> clones[i] != clones[j]
    requires Tiles(maps, from, to)
    ensures Mapped(p, clones + [clone]) && Tiles(p.maps, from, to + clone.bytes / 512)
  {
    TilesAdd(maps, from, to, SectorMap(clone, to, clone.bytes));
  }

  /** One more clone with its entry in the sector map, or neither. */
  method NextClone(p: Params, ghost clones: seq<CloneBio>, ghost from: nat, start: nat, pages: nat, plenty: bool)
    returns (clone: CloneBio?, bytes: nat)
    requires Tracing(p, clones, from, start) && pages > 0
    modifies p
    ensures plenty ==> clone != null
    ensures clone == null ==> Tracing(p, clones, from, start)
    ensures clone != null ==>
      && fresh(clone) && WholePages(bytes) && bytes <= pages * PAGE_BYTES
      && bytes / 512 == bytes / PAGE_BYTES * 8 && 0 < bytes / PAGE_BYTES <= pages
      && Tracing(p, clones + [clone], from, start + bytes / 512)
  {
    clone, bytes := MakeReadClone(p, start, pages, plenty);
    if clone == null { return; }
    PagesInSectors(bytes, pages);
    ghost var maps := p.maps;
    var ok := p.Add(clone, plenty);
    if ok {
      TracingAdd(p, clones, clone, maps, from, start);
    } else {
      p.Put();
      clone := null;
    }
  }

  /** Traces a write to the base device. A write whose parameters cannot be
      allocated is let through; any other is deferred, on failure with the
      references of the clones that were submitted, so that it is released when
      the last of them completes, or at once when there are none. */
  method SnapTraceBio(sector: nat, sectors: nat, off: nat, plenty: bool)
    returns (deferred: bool, failed: bool, p: Params?, clones: seq<CloneBio>, ghost reached: nat)
    requires off <= sector && sectors > 0
    ensures deferred <==> p != null
    ensures plenty ==> deferred && !failed
    ensures p == null ==> failed && clones == []
    ensures p != null ==>
      && fresh(p) && p.refs == |clones| == |p.maps|
      && p.releases == (if clones == [] then 1 else 0)
      && (forall i :: 0 <= i < |clones| ==> fresh(clones[i]))
      && Mapped(p, clones)
      && Tiles(p.maps, RoundDown(sector - off) + off, reached)
      && reached <= RoundUp(sector + sectors - off) + off
    ensures p != null && !failed ==> clones != [] && reached == RoundUp(sector + sectors - off) + off
  {
    deferred, failed, p, clones, reached := false, false, null, [], 0;
    var start := RoundDown(sector - off) + off;
    var end := RoundUp(sector + sectors - off) + off;
    var pages := (end - start) / 8;
    var room: bool := *;
    if !room && !plenty {
      failed := true;
      return;
    }
    p := new Params();
    deferred := true;
    ghost var from := start;
    reached := start;
    while true
      invariant reached == start && fresh(p) && start + pages * 8 == end && pages > 0
      invariant from == RoundDown(sector - off) + off
      invariant Tracing(p, clones, from, start)
      invariant forall i :: 0 <= i < |clones| ==> fresh(clones[i])
      decreases pages
    {
      var clone, bytes := NextClone(p, clones, from, start, pages, plenty);
      if clone == null {
        failed := true;
        p.Put();
        return;
      }
      clones := clones + [clone];
      start := start + bytes / 512;
      reached := start;
      if bytes / PAGE_BYTES >= pages { break; }
      pages := pages - bytes / PAGE_BYTES;
    }
    p.Put();
  }
}
