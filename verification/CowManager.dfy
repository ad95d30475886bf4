/** The copy-on-write manager: a cache of index sections over the file, with
    eviction by usage, a clean/dirty header and an append-only data store. */
module CowManager {
  import opened Blocks
  import opened CowImage
  import opened CowDisk
  import opened CowStore
  import opened CowSweep
  import CowUsage

  function Resident(maps: seq<Option<Section>>): nat {
    if maps == [] then 0 else (if maps[0].Some? then 1 else 0) + Resident(maps[1..])
  }

  function InMemory(maps: seq<Option<Section>>): (flags: seq<bool>)
    ensures |flags| == |maps| && forall i :: 0 <= i < |maps| ==> flags[i] == maps[i].Some?
  {
    seq(|maps|, i requires 0 <= i < |maps| => maps[i].Some?)
  }

  lemma {:induction false} ResidentUpdate(maps: seq<Option<Section>>, i: nat, m: Option<Section>)
    requires i < |maps|
    ensures Resident(maps[i := m])
            == Resident(maps) - (if maps[i].Some? then 1 else 0) + (if m.Some? then 1 else 0)
  {
    if i == 0 {
      assert maps[0 := m][1..] == maps[1..];
    } else {
      assert maps[i := m][1..] == maps[1..][i - 1 := m];
      ResidentUpdate(maps[1..], i - 1, m);
    }
  }

  lemma {:induction false} NoneResident(maps: seq<Option<Section>>)
    requires forall i :: 0 <= i < |maps| ==> maps[i].None?
    ensures Resident(maps) == 0
  {
    if maps != [] { NoneResident(maps[1..]); }
  }

  lemma {:induction false} ResidentAreTrue(maps: seq<Option<Section>>)
    ensures CowUsage.Trues(InMemory(maps)) == Resident(maps)
  {
    if maps != [] {
      ResidentAreTrue(maps[1..]);
      assert InMemory(maps)[1..] == InMemory(maps[1..]);
    }
  }

  /** The part of the cache that decides what is evicted. */
  function CacheOf(has: seq<bool>, maps: seq<Option<Section>>, counts: seq<nat>): CowUsage.Cache {
    CowUsage.Cache(InMemory(maps), has, counts)
  }

  /** A section brought into memory, and its counter raised before. */
  lemma BroughtIn(has: seq<bool>, has': seq<bool>, maps: seq<Option<Section>>, maps': seq<Option<Section>>,
                  counts: seq<nat>, i: nat)
    requires |has| == |maps| == |counts| && i < |maps|
    requires has' == has[i := true] && |maps'| == |maps| && maps'[i].Some?
    requires forall j :: 0 <= j < |maps| && j != i ==> maps'[j].Some? == maps[j].Some?
    ensures CacheOf(has', maps', counts) == CowUsage.Bring(CacheOf(has, maps, counts), i)
  {
    assert InMemory(maps') == InMemory(maps)[i := true];
  }

  /** Counters have gone up by one for section i, or back to zero. */
  predicate CountedSeqs(was: seq<nat>, now: seq<nat>, i: nat) {
    && |was| == |now|
    && forall j :: 0 <= j < |was| ==> now[j] == 0 || now[j] == was[j] + if j == i then 1 else 0
  }

  lemma RaisedCounted(was: seq<nat>, raised: seq<nat>, now: seq<nat>, i: nat)
    requires i < |was| && raised == was[i := was[i] + 1] && CountedSeqs(raised, now, |was|)
    ensures CountedSeqs(was, now, i)
  {
  }

  /** What a sweep has done, as far as it got. */
  predicate SweptSeqs(maps: seq<Option<Section>>, counts: seq<nat>, maps': seq<Option<Section>>, counts': seq<nat>,
                      thresh: nat, k: nat)
    requires |maps| == |counts| == |maps'| == |counts'|
  {
    forall j :: 0 <= j < |maps| ==>
      && counts'[j] == (if j < k then 0 else counts[j])
      && (maps'[j].Some? <==> maps[j].Some? && !(j < k && Unwanted(counts[j], thresh)))
  }

  lemma SweptIsTidy(has: seq<bool>, maps: seq<Option<Section>>, counts: seq<nat>, maps': seq<Option<Section>>,
                    counts': seq<nat>, allowed: nat)
    requires |has| == |maps| == |counts| == |maps'| == |counts'| && Resident(maps) > allowed
    requires SweptSeqs(maps, counts, maps', counts', Threshold(counts),
                       Reached(InMemory(maps), counts, Threshold(counts), allowed / 2, 0, Resident(maps)))
    ensures CacheOf(has, maps', counts') == CowUsage.Tidy(CacheOf(has, maps, counts), allowed)
  {
    ResidentAreTrue(maps);
    var c := CowUsage.Tidy(CacheOf(has, maps, counts), allowed);
    assert InMemory(maps') == c.inMemory;
    assert counts' == c.usage;
  }

  /** Sections that fit in the cache beside the array of 24-byte descriptors. */
  function AllowedSections(cacheBytes: nat, total: nat): nat {
    if cacheBytes <= total * 24 then 0 else (cacheBytes - total * 24) / 32768
  }

  /** It is the largest number whose sections and descriptors together fit in the
      cache, or none when the descriptors alone fill it. */
  lemma AllowedSectionsFit(cacheBytes: nat, total: nat)
    ensures var n := AllowedSections(cacheBytes, total);
            if cacheBytes < total * 24 then n == 0
            else n * 32768 + total * 24 <= cacheBytes < (n + 1) * 32768 + total * 24
  {
    if cacheBytes > total * 24 {
      var left := cacheBytes - total * 24;
      assert left / 32768 * 32768 <= left < (left / 32768 + 1) * 32768;
    }
  }

  /** What an open accepts: a header left clean in the wanted mode. */
  predicate Acceptable(img: Image, wantIndexOnly: bool) {
    CleanHeader(img) && HeaderOf(img).indexOnly == wantIndexOnly
  }

  /** How opening a header ends: read and marked dirty; not read; refused; or read
      but not marked. */
  datatype Opening = Opened | Unreadable | Refused | Unmarked

  /** The header fields an open takes over. */
  function Taken(img: Image, resetVmalloc: bool): Header {
    HeaderOf(img).(clean := true, vmalloc := HeaderOf(img).vmalloc && !resetVmalloc)
  }

  predicate SameSections(a: Image, b: Image, sectSize: nat, total: nat) {
    forall i :: 0 <= i < total ==> SectionOf(a, sectSize, i) == SectionOf(b, sectSize, i)
  }

  /** With the same index on disk, the cache stands for the same view. */
  lemma SameIndexSameView(has: seq<bool>, maps: seq<Option<Section>>, a: Image, b: Image, sectSize: nat)
    requires |has| == |maps| && SameSections(a, b, sectSize, |has|)
    ensures ViewOf(has, maps, a, sectSize) == ViewOf(has, maps, b, sectSize)
    ensures UnusedAreZero(has, a, sectSize) ==> UnusedAreZero(has, b, sectSize)
  {
  }

  /** With nothing in memory the file's index is the view. */
  lemma FlushedView(has: seq<bool>, maps: seq<Option<Section>>, img: Image, sectSize: nat)
    requires |has| == |maps| && UnusedAreZero(has, img, sectSize)
    requires forall i :: 0 <= i < |maps| ==> maps[i].None?
    ensures ViewOf(has, maps, img, sectSize) == IndexOf(img, sectSize, |has|)
  {
  }

  /** The file by itself holds this header and this index. */
  predicate Holds(img: Image, h: Header, view: seq<Section>, sectSize: nat) {
    CleanHeader(img) && HeaderOf(img) == h && IndexOf(img, sectSize, |view|) == view
  }

  /** A header written over flushed sections closes the file on this view. */
  lemma ClosedImage(was: Image, h: Header, view: seq<Section>, sectSize: nat)
    requires h.magic == MAGIC && h.clean
    requires forall i :: 0 <= i < |view| ==> view[i] == SectionOf(was, sectSize, i)
    ensures var img := WriteHeader(was, h);
            && Holds(img, h, view, sectSize)
            && SameSections(was, img, sectSize, |view|)
            && SameFrom(was, img, 8)
            && CrashSafe(Moment(img, Closed(h, view, img)), sectSize, |view|)
  {
    HeaderWritten(was, h);
    forall i | 0 <= i < |view|
      ensures SectionOf(WriteHeader(was, h), sectSize, i) == SectionOf(was, sectSize, i)
    {
      ReadSame(was, WriteHeader(was, h), SectionAt(sectSize, i), sectSize);
    }
  }

  /** Sections in memory have data and full size; `resident` counts them. */
  predicate CacheOk(has: seq<bool>, maps: seq<Option<Section>>, sectSize: nat, resident: nat) {
    && |has| == |maps|
    && (forall i :: 0 <= i < |maps| && maps[i].Some? ==> has[i] && |maps[i].value| == sectSize)
    && resident == Resident(maps)
  }

  /** Sections without data are zero in the file. */
  predicate UnusedAreZero(has: seq<bool>, img: Image, sectSize: nat) {
    forall i :: 0 <= i < |has| && !has[i] ==> SectionOf(img, sectSize, i) == Zeros(sectSize)
  }

  class Manager {
    const sectSize: nat
    const total: nat
    const file: CowFile
    const hasData: array<bool>
    const usage: array<nat>
    const mappings: array<Option<Section>>

    var open: bool      // the file is open
    var live: bool      // the section array has not been freed
    var clean: bool
    var indexOnly: bool
    var vmalloc: bool
    var currPos: nat    // next free data block
    var fileSize: nat   // bytes
    var seqId: nat
    var uuid: (nat, nat)
    var version: nat
    var changed: nat    // nr_changed_blocks
    var resident: nat
    var allowed: nat
    ghost var saved: Saved
    ghost var peak: nat // most sections ever resident

    constructor (file: CowFile, sectSize: nat, total: nat, allowed: nat)
      ensures this.file == file && this.sectSize == sectSize && this.total == total
      ensures fresh(hasData) && fresh(usage) && fresh(mappings)
      ensures Geometry() && live && open && this.allowed == allowed && resident == 0 && peak == 0
      ensures forall i :: 0 <= i < total ==> !hasData[i] && usage[i] == 0 && mappings[i].None?
    {
      this.file, this.sectSize, this.total, this.allowed := file, sectSize, total, allowed;
      hasData := new bool[total](_ => false);
      usage := new nat[total](_ => 0);
      mappings := new Option<Section>[total](_ => None);
      open, live, clean, indexOnly, vmalloc := true, true, false, false, false;
      currPos, fileSize, seqId, uuid, version, changed := 0, 0, 0, (0, 0), 0, 0;
      resident, saved, peak := 0, NeverClosed, 0;
    }

    predicate Geometry()
    {
      hasData.Length == total && usage.Length == total && mappings.Length == total
    }

    /** Blocks the index has room for. */
    function Capacity(): nat
    {
      total * sectSize
    }

    /** First word behind the index. */
    function DataStart(): nat
    {
      SectionAt(sectSize, total)
    }

    ghost predicate Cached()
      requires Geometry()
      reads this, hasData, mappings, file
    {
      && live && sectSize > 0
      && CacheOk(hasData[..], mappings[..], sectSize, resident)
      && UnusedAreZero(hasData[..], file.image, sectSize)
      && file.TraceSafe(sectSize, total)
    }

    /** An open manager: what every operation keeps. */
    ghost predicate Valid()
      reads this, hasData, mappings, file
    {
      Geometry() && Cached() && open && !CleanHeader(file.image)
    }

    /** The flat index the cache stands for. */
    ghost function View(): seq<Section>
      requires Geometry()
      reads this, hasData, mappings, file
    {
      ViewOf(hasData[..], mappings[..], file.image, sectSize)
    }

    /** No section is in memory, and none has been used. */
    ghost predicate Unused()
      requires Geometry()
      reads this, usage, mappings
    {
      forall i :: 0 <= i < total ==> usage[i] == 0 && mappings[i].None?
    }

    /** Which sections are in memory or have data, and how often each was used. */
    ghost function Cache(): CowUsage.Cache
      requires Geometry()
      reads this, hasData, usage, mappings
    {
      CacheOf(hasData[..], mappings[..], usage[..])
    }

    /** A mapping operation on this position has used the cache, and cleaned it up if
        it was then over its limit. */
    ghost predicate Used(was: CowUsage.Cache, pos: nat, write: bool)
      requires Geometry()
      reads this, hasData, usage, mappings
    {
      && sectSize > 0 && pos / sectSize < total && was.Of(total)
      && Cache() == CowUsage.After(was, CowUsage.Use(pos / sectSize, write), allowed)
    }

    /** Counters go up by one for the section in use, or back to zero. */
    ghost predicate CountedAt(was: seq<nat>, pos: nat)
      requires Geometry() && |was| == total
      reads this, usage
    {
      sectSize > 0 && CountedSeqs(was, usage[..], pos / sectSize)
    }

    /** At most one section over the limit, and then only with every usage counter
        of a resident section back at zero; never more than two over it. */
    ghost predicate Bounded()
      requires Geometry()
      reads this, hasData, usage, mappings
    {
      Within() && peak <= allowed + 2
    }

    ghost predicate Within()
      requires Geometry()
      reads this, hasData, usage, mappings
    {
      CowUsage.Small(Cache(), allowed)
    }

    /** How many more cleanups bring the cache within its limit. */
    ghost function Excess(): nat
      requires Geometry()
      reads this, hasData, usage, mappings
    {
      CowUsage.Excess(Cache(), allowed)
    }

    // ------------------------------------------------------------- sections

    method FreeSection(i: nat)
      requires Geometry() && i < total && mappings[i].Some? && resident > 0
      modifies this`resident, mappings
      ensures mappings[..] == old(mappings[..])[i := None] && resident == old(resident) - 1
    {
      mappings[i] := None;
      resident := resident - 1;
    }

    /** Memory that is not zeroed holds anything. */
    method AllocSection(i: nat, zero: bool) returns (ok: bool)
      requires Geometry() && i < total
      modifies this`resident, this`peak, hasData, mappings
      ensures ok ==>
        && mappings[i].Some? && |mappings[i].value| == sectSize && (zero ==> mappings[i].value == Zeros(sectSize))
        && mappings[..] == old(mappings[..])[i := mappings[i]]
        && hasData[..] == old(hasData[..])[i := true] && resident == old(resident) + 1
        && peak == if resident > old(peak) then resident else old(peak)
      ensures !ok ==>
        && mappings[..] == old(mappings[..]) && hasData[..] == old(hasData[..])
        && resident == old(resident) && peak == old(peak)
      ensures file.steady ==> ok
    {
      ok := *;
      ok := ok || file.steady;
      if ok {
        var garbage: Section := *;
        mappings[i] := Some(if zero || |garbage| != sectSize then Zeros(sectSize) else garbage);
        hasData[i] := true;
        resident := resident + 1;
        peak := if resident > peak then resident else peak;
      }
    }

    method LoadSection(i: nat) returns (ok: bool)
      requires Valid() && i < total && hasData[i] && mappings[i].None?
      modifies this`resident, this`peak, hasData, mappings
      ensures Valid() && View() == old(View()) && hasData[..] == old(hasData[..])
      ensures ok ==>
        && mappings[..] == old(mappings[..])[i := Some(old(View())[i])] && resident == old(resident) + 1
        && peak == if resident > old(peak) then resident else old(peak)
      ensures !ok ==> mappings[..] == old(mappings[..]) && resident == old(resident)
      ensures peak <= Max(old(peak), old(resident) + 1)
      ensures file.steady ==> ok
    {
      ghost var maps := mappings[..];
      ok := AllocSection(i, false);
      if ok {
        var words;
        ok, words := file.Read(SectionAt(sectSize, i), sectSize);
        if ok {
          mappings[i] := Some(words);
          ResidentUpdate(maps, i, Some(words));
          assert mappings[..] == maps[i := Some(words)];
        } else {
          FreeSection(i);
          assert mappings[..] == maps;
        }
        assert hasData[..] == old(hasData[..]);
      }
    }

    method WriteSection(i: nat) returns (ok: bool)
      requires Valid() && i < total && mappings[i].Some?
      modifies file`image, file`trace
      ensures Valid()
      ensures file.image == if ok then WriteWords(old(file.image), SectionAt(sectSize, i), mappings[i].value)
                            else old(file.image)
      ensures file.steady ==> ok
    {
      ok := file.Write(SectionAt(sectSize, i), mappings[i].value, saved);
      if ok {
        HeaderUntouched(old(file.image), file.image);
        forall j | 0 <= j < total && !hasData[j]
          ensures SectionOf(file.image, sectSize, j) == Zeros(sectSize)
        {
          SectionWritten(old(file.image), sectSize, i, mappings[i].value, j);
        }
        DirtyMomentSafe(old(file.trace), Moment(file.image, saved), sectSize, total);
      }
    }

    /** Writes back and frees: everything when `thresh` is zero, otherwise the
        sections used at most `thresh` times, until half the limit is left. The
        sections the sweep comes to lose their counts, the others keep them. */
    method SyncAndFreeSections(thresh: nat) returns (ok: bool)
      requires Valid()
      modifies this`resident, usage, mappings, file`image, file`trace
      ensures Valid() && View() == old(View()) && SameFrom(old(file.image), file.image, DataStart())
      ensures resident <= old(resident)
      ensures forall j :: 0 <= j < total && mappings[j].Some? ==> old(mappings[j].Some?)
      ensures ok ==> Swept(old(mappings[..]), old(usage[..]), thresh, old(resident))
      ensures CountedSeqs(old(usage[..]), usage[..], total)
      ensures ok && thresh == 0 ==>
        resident == 0 && forall j :: 0 <= j < total ==> mappings[j].None? && usage[j] == 0
      ensures ok && resident > allowed / 2 ==>
        forall j :: 0 <= j < total ==> usage[j] == 0 && (mappings[j].Some? ==> old(usage[j]) > thresh)
      ensures thresh > 0 ==>
        forall j :: 0 <= j < total && old(mappings[j].Some?) && old(usage[j]) > thresh ==> mappings[j].Some?
      ensures file.steady ==> ok
    {
      ghost var maps, counts, before := mappings[..], usage[..], resident;
      ghost var reached;
      ok, reached := Sweep(thresh);
      if ok {
        CourseEnds(InMemory(maps), counts, thresh, allowed / 2, before, reached, resident);
        if thresh == 0 { NoneResident(mappings[..]); }
      }
    }

    /** The loop itself; `reached` sections had their turn. */
    method Sweep(thresh: nat) returns (ok: bool, ghost reached: nat)
      requires Valid()
      modifies this`resident, usage, mappings, file`image, file`trace
      ensures Valid() && View() == old(View()) && SameFrom(old(file.image), file.image, DataStart())
      ensures reached <= total && SweptTo(old(mappings[..]), old(usage[..]), thresh, reached)
      ensures resident <= old(resident)
      ensures ok ==>
        && OnCourse(InMemory(old(mappings[..])), old(usage[..]), thresh, allowed / 2, old(resident), reached, resident)
        && (reached < total ==> thresh > 0 && resident <= allowed / 2)
      ensures file.steady ==> ok
    {
      var i := 0;
      ok, reached := true, 0;
      ghost var maps, counts, before := mappings[..], usage[..], resident;
      ghost var flags := InMemory(maps);
      ghost var view, image := View(), file.image;
      while i < total && (thresh == 0 || resident > allowed / 2)
        invariant i <= total && i == reached && ok && Valid() && View() == view
        invariant SameFrom(image, file.image, DataStart()) && resident <= before
        invariant SweptTo(maps, counts, thresh, i)
        invariant OnCourse(flags, counts, thresh, allowed / 2, before, i, resident)
      {
        ok := Turn(i, thresh, maps, counts, before);
        if !ok { return; }
        i := i + 1;
        reached := i;
      }
    }

    /** A section's turn, as part of a sweep over these sections and counters. */
    method Turn(i: nat, thresh: nat, ghost maps: seq<Option<Section>>, ghost counts: seq<nat>, ghost before: nat)
      returns (ok: bool)
      requires Valid() && i < total && |maps| == |counts| == total && SweptTo(maps, counts, thresh, i)
      requires thresh == 0 || resident > allowed / 2
      requires OnCourse(InMemory(maps), counts, thresh, allowed / 2, before, i, resident)
      modifies this`resident, usage, mappings, file`image, file`trace
      ensures Valid() && View() == old(View()) && SameFrom(old(file.image), file.image, DataStart())
      ensures SweptTo(maps, counts, thresh, if ok then i + 1 else i)
      ensures resident <= old(resident)
      ensures ok ==> OnCourse(InMemory(maps), counts, thresh, allowed / 2, before, i + 1, resident)
      ensures file.steady ==> ok
    {
      CourseGoesOn(InMemory(maps), counts, thresh, allowed / 2, before, i, resident);
      ok := Visit(i, thresh);
    }

    /** The first i sections have had their turn. */
    ghost predicate SweptTo(maps: seq<Option<Section>>, counts: seq<nat>, thresh: nat, i: nat)
      requires Geometry() && |maps| == |counts| == total
      reads this, usage, mappings
    {
      forall j :: 0 <= j < total ==>
        && usage[j] == (if j < i then 0 else counts[j])
        && (mappings[j].Some? <==> maps[j].Some? && !(j < i && Unwanted(counts[j], thresh)))
    }

    /** What a sweep that ends well has done to sections and counters. */
    ghost predicate Swept(maps: seq<Option<Section>>, counts: seq<nat>, thresh: nat, before: nat)
      requires Geometry() && |maps| == |counts| == total
      reads this, usage, mappings
    {
      SweptTo(maps, counts, thresh, Reached(InMemory(maps), counts, thresh, allowed / 2, 0, before))
    }

    /** One section's turn: evicted if it was not used enough, counter reset. */
    method Visit(i: nat, thresh: nat) returns (ok: bool)
      requires Valid() && i < total
      modifies this`resident, usage, mappings, file`image, file`trace
      ensures Valid() && View() == old(View()) && SameFrom(old(file.image), file.image, DataStart())
      ensures resident <= old(resident)
      ensures forall j :: 0 <= j < total && j != i ==> usage[j] == old(usage[j]) && mappings[j] == old(mappings[j])
      ensures ok ==>
        && usage[i] == 0
        && (mappings[i].Some? <==> old(mappings[i].Some?) && !Unwanted(old(usage[i]), thresh))
        && resident == old(resident) - Drop(old(mappings[i].Some?), old(usage[i]), thresh)
      ensures !ok ==> mappings[i] == old(mappings[i]) && usage[i] == old(usage[i])
      ensures file.steady ==> ok
    {
      ok := true;
      if mappings[i].Some? && Unwanted(usage[i], thresh) {
        ok := Evict(i);
        if !ok { return; }
      }
      usage[i] := 0;
    }

    /** One section written to its place and dropped. */
    method Evict(i: nat) returns (ok: bool)
      requires Valid() && i < total && mappings[i].Some?
      modifies this`resident, mappings, file`image, file`trace
      ensures Valid() && View() == old(View()) && SameFrom(old(file.image), file.image, DataStart())
      ensures mappings[..] == if ok then old(mappings[..])[i := None] else old(mappings[..])
      ensures resident == if ok then old(resident) - 1 else old(resident)
      ensures file.steady ==> ok
    {
      ok := WriteSection(i);
      ghost var maps := mappings[..];
      if ok {
        ResidentUpdate(maps, i, None);
        EvictKeepsView(hasData[..], maps, old(file.image), sectSize, i);
        SectionWriteInIndex(old(file.image), sectSize, i, maps[i].value, total);
        FreeSection(i);
      }
    }

    /** The threshold search: half of the largest usage, moved by ever smaller
        steps towards the median of all sections. */
    method FindThreshold() returns (thresh: nat)
      requires Geometry()
      ensures thresh == Threshold(usage[..])
    {
      var max := 0;
      for i := 0 to total
        invariant max == MaxUsage(usage[..i])
      {
        assert usage[..i + 1][..i] == usage[..i];
        if usage[i] > max { max := usage[i]; }
      }
      assert usage[..total] == usage[..];
      thresh := max / 2;
      var granularity: nat := thresh;
      while granularity > 0
        invariant granularity <= thresh
        invariant Search(usage[..], thresh, granularity) == Threshold(usage[..])
      {
        ghost var was: nat := granularity;
        granularity := granularity / 2;
        var less, greater := CountUsage(thresh);
        assert less == greater ==> Search(usage[..], thresh, was) == thresh;
        if greater > less {
          thresh := thresh + granularity;
        } else if greater < less {
          thresh := thresh - granularity;
        } else {
          break;
        }
      }
    }

    method CountUsage(thresh: nat) returns (less: nat, greater: nat)
      requires Geometry()
      ensures less == AtMost(usage[..], thresh) && less + greater == total
    {
      less, greater := 0, 0;
      for i := 0 to total
        invariant less == AtMost(usage[..i], thresh) && less + greater == i
      {
        assert usage[..i + 1][..i] == usage[..i];
        if usage[i] <= thresh { less := less + 1; } else { greater := greater + 1; }
      }
      assert usage[..total] == usage[..];
    }

    method CleanupMappings() returns (ok: bool)
      requires Valid()
      modifies this`resident, usage, mappings, file`image, file`trace
      ensures Valid() && View() == old(View()) && SameFrom(old(file.image), file.image, DataStart())
      ensures resident <= old(resident)
      ensures forall j :: 0 <= j < total && mappings[j].Some? ==> old(mappings[j].Some?)
      ensures ok && resident > allowed / 2 ==>
        forall j :: 0 <= j < total ==> usage[j] == 0 && (mappings[j].Some? ==> old(usage[j]) > 1)
      ensures ok ==> Swept(old(mappings[..]), old(usage[..]), Threshold(old(usage[..])), old(resident))
      ensures CountedSeqs(old(usage[..]), usage[..], total)
      ensures file.steady ==> ok
    {
      var thresh := FindThreshold();
      ok := SyncAndFreeSections(thresh);
    }

    /** The tail of every mapping operation: a cache over its limit is cleaned up. */
    method LimitCache() returns (ok: bool)
      requires Valid()
      modifies this`resident, usage, mappings, file`image, file`trace
      ensures Valid() && View() == old(View()) && SameFrom(old(file.image), file.image, DataStart())
      ensures ok ==> Cache() == CowUsage.Tidy(old(Cache()), allowed)
      ensures CountedSeqs(old(usage[..]), usage[..], total)
      ensures file.steady ==> ok
    {
      ok := true;
      ghost var maps, counts := mappings[..], usage[..];
      ResidentAreTrue(maps);
      if resident > allowed {
        ok := CleanupMappings();
        if ok { SweptIsTidy(hasData[..], maps, counts, mappings[..], usage[..], allowed); }
      }
    }

    /** The section is in memory or in the file. */
    ghost predicate HasSection(i: nat)
      requires Geometry()
      reads this, hasData, mappings
    {
      i < total && (mappings[i].Some? || hasData[i])
    }

    /** The section of this position is in memory or in the file. */
    ghost predicate Backed(pos: nat)
      requires Geometry()
      reads this, hasData, mappings
    {
      sectSize > 0 && HasSection(pos / sectSize)
    }

    /** The head of every mapping operation: the section's counter goes up, and it is
        brought into memory unless it is only read and has no data. */
    method UseSection(i: nat, write: bool) returns (ok: bool, found: bool)
      requires Valid() && i < total
      modifies this`resident, this`peak, hasData, usage, mappings
      ensures Valid() && View() == old(View())
      ensures usage[..] == old(usage[..])[i := old(usage[i]) + 1]
      ensures ok ==> (found <==> write || old(HasSection(i)))
      ensures peak <= Max(old(peak), old(resident) + 1)
      ensures ok && found ==>
        && mappings[i] == Some(old(View())[i])
        && Cache() == CowUsage.Bring(CowUsage.Raise(old(Cache()), i), i)
      ensures ok && !found ==> View()[i] == Zeros(sectSize) && Cache() == CowUsage.Raise(old(Cache()), i)
      ensures file.steady ==> ok
    {
      ghost var has, maps := hasData[..], mappings[..];
      usage[i] := usage[i] + 1;
      ok, found := true, true;
      if mappings[i].None? && !hasData[i] && !write {
        found := false;
        return;
      }
      ok := BringIn(i);
      if ok { BroughtIn(has, hasData[..], maps, mappings[..], usage[..], i); }
    }

    /** Looks up one mapping, loading its section if it was evicted. A section
        never written answers zero at once, without any cleanup. */
    method ReadMapping(pos: nat) returns (ok: bool, out: Word)
      requires Valid() && pos < Capacity()
      modifies this`resident, this`peak, hasData, usage, mappings, file`image, file`trace
      ensures Valid() && View() == old(View()) && SameFrom(old(file.image), file.image, DataStart())
      ensures InView(View(), sectSize, pos) && (ok ==> out == At(View(), sectSize, pos))
      ensures ok && old(Bounded()) ==> Bounded()
      ensures ok ==> Excess() <= if old(Backed(pos) && Excess() > 0) then old(Excess()) - 1 else old(Excess())
      ensures ok ==> Used(old(Cache()), pos, false)
      ensures CountedAt(old(usage[..]), pos)
      ensures file.steady ==> ok
    {
      InsideView(pos);
      ghost var was := Cache();
      ResidentAreTrue(mappings[..]);
      ok, out := ReadInSection(pos / sectSize, pos % sectSize);
      CowUsage.OperationSettles(was, CowUsage.Use(pos / sectSize, false), allowed);
    }

    method ReadInSection(i: nat, at: nat) returns (ok: bool, out: Word)
      requires Valid() && i < total && at < sectSize
      modifies this`resident, this`peak, hasData, usage, mappings, file`image, file`trace
      ensures Valid() && View() == old(View()) && SameFrom(old(file.image), file.image, DataStart())
      ensures peak <= Max(old(peak), old(resident) + 1)
      ensures ok ==> out == View()[i][at]
      ensures ok ==> Cache() == CowUsage.After(old(Cache()), CowUsage.Use(i, false), allowed)
      ensures CountedSeqs(old(usage[..]), usage[..], i)
      ensures file.steady ==> ok
    {
      ghost var counts, was := usage[..], Cache();
      var found;
      out := 0;
      ok, found := UseSection(i, false);
      if !ok || !found { return; }
      out := mappings[i].value[at];
      ok := FinishUse(i, counts, was, false);
    }

    ghost predicate CountOk()
      requires Geometry()
      reads this, hasData, mappings, file
    {
      version >= 1 ==> changed == Changed(View())
    }

    /** What a write to this position adds to the count, from the format version on
        that has one. */
    ghost function NewlyMapped(pos: nat): nat
      requires Geometry()
      reads this, hasData, mappings, file
    {
      if version >= 1 && InView(View(), sectSize, pos) && At(View(), sectSize, pos) == 0 then 1 else 0
    }

    /** Sets one mapping. The flat view and the count of changed blocks move
        together, even when the cleanup behind the write fails. */
    method WriteMapping(pos: nat, val: Word) returns (ok: bool)
      requires Valid() && pos < Capacity()
      modifies this`resident, this`peak, this`changed, hasData, usage, mappings, file`image, file`trace
      ensures Valid() && SameFrom(old(file.image), file.image, DataStart())
      ensures InView(old(View()), sectSize, pos)
      ensures View() == Put(old(View()), sectSize, pos, val) || (!ok && View() == old(View()))
      ensures ok ==> View() == Put(old(View()), sectSize, pos, val)
      ensures val != 0 && old(CountOk()) ==> CountOk()
      ensures ok && old(Bounded()) ==> Bounded()
      ensures ok ==> Excess() <= if old(Excess()) > 0 then old(Excess()) - 1 else 0
      ensures ok ==> Used(old(Cache()), pos, true)
      ensures ok ==> changed == old(changed + NewlyMapped(pos))
      ensures CountedAt(old(usage[..]), pos)
      ensures file.steady ==> ok
    {
      InsideView(pos);
      ghost var was := Cache();
      ResidentAreTrue(mappings[..]);
      ok := WriteInSection(pos / sectSize, pos, val);
      CowUsage.OperationSettles(was, CowUsage.Use(pos / sectSize, true), allowed);
    }

    method WriteInSection(i: nat, pos: nat, val: Word) returns (ok: bool)
      requires Valid() && pos < Capacity() && i == pos / sectSize && i < total
      modifies this`resident, this`peak, this`changed, hasData, usage, mappings, file`image, file`trace
      ensures Valid() && SameFrom(old(file.image), file.image, DataStart())
      ensures InView(old(View()), sectSize, pos)
      ensures View() == Put(old(View()), sectSize, pos, val) || (!ok && View() == old(View()))
      ensures val != 0 && old(CountOk()) ==> CountOk()
      ensures peak <= Max(old(peak), old(resident) + 1)
      ensures ok ==> Cache() == CowUsage.After(old(Cache()), CowUsage.Use(i, true), allowed)
      ensures ok ==> changed == old(changed + NewlyMapped(pos))
      ensures CountedSeqs(old(usage[..]), usage[..], i)
      ensures file.steady ==> ok
    {
      ghost var counts, was := usage[..], Cache();
      ok := UseAndSet(i, pos, val);
      if ok { ok := FinishUse(i, counts, was, true); }
    }

    /** The end of a mapping operation that has brought its section into memory. */
    method FinishUse(i: nat, ghost counts: seq<nat>, ghost was: CowUsage.Cache, ghost write: bool) returns (ok: bool)
      requires Valid() && i < total && |counts| == total && usage[..] == counts[i := counts[i] + 1]
      requires was.Of(total) && Cache() == CowUsage.Bring(CowUsage.Raise(was, i), i)
      requires !CowUsage.EndsEarly(was, CowUsage.Use(i, write))
      modifies this`resident, usage, mappings, file`image, file`trace
      ensures Valid() && View() == old(View()) && SameFrom(old(file.image), file.image, DataStart())
      ensures ok ==> Cache() == CowUsage.After(was, CowUsage.Use(i, write), allowed)
      ensures CountedSeqs(counts, usage[..], i)
      ensures file.steady ==> ok
    {
      ghost var raised := usage[..];
      ok := LimitCache();
      RaisedCounted(counts, raised, usage[..], i);
    }

    method UseAndSet(i: nat, pos: nat, val: Word) returns (ok: bool)
      requires Valid() && pos < Capacity() && i == pos / sectSize && i < total
      modifies this`resident, this`peak, this`changed, hasData, usage, mappings
      ensures Valid() && InView(old(View()), sectSize, pos)
      ensures View() == if ok then Put(old(View()), sectSize, pos, val) else old(View())
      ensures val != 0 && old(CountOk()) ==> CountOk()
      ensures peak <= Max(old(peak), old(resident) + 1)
      ensures usage[..] == old(usage[..])[i := old(usage[i]) + 1]
      ensures ok ==> Cache() == CowUsage.Bring(CowUsage.Raise(old(Cache()), i), i)
      ensures ok ==> changed == old(changed + NewlyMapped(pos))
      ensures file.steady ==> ok
    {
      InsideView(pos);
      var found;
      ok, found := UseSection(i, true);
      if ok { CountAndSet(pos, val); }
    }

    lemma InsideView(pos: nat)
      requires Valid() && pos < Capacity()
      ensures InView(View(), sectSize, pos) && pos / sectSize < total
    {
      PositionInside(View(), sectSize, pos);
    }

    method CountAndSet(pos: nat, val: Word)
      requires Valid() && pos < Capacity() && pos / sectSize < total && mappings[pos / sectSize].Some?
      modifies this`changed, mappings
      ensures Valid() && InView(old(View()), sectSize, pos)
      ensures View() == Put(old(View()), sectSize, pos, val)
      ensures val != 0 && old(CountOk()) ==> CountOk()
      ensures forall j :: 0 <= j < total ==> mappings[j].Some? == old(mappings[j].Some?)
      ensures Cache() == old(Cache())
      ensures changed == old(changed + NewlyMapped(pos))
    {
      InsideView(pos);
      var i, at := pos / sectSize, pos % sectSize;
      ghost var was := View();
      assert mappings[i].value[at] == At(was, sectSize, pos);
      if version >= 1 && mappings[i].value[at] == 0 {
        changed := changed + 1;
      }
      ghost var flags := InMemory(mappings[..]);
      SetMapping(i, at, val);
      assert InMemory(mappings[..]) == flags;
      assert View() == Put(was, sectSize, pos, val);
      PutChanges(was, sectSize, pos, val);
    }

    /** Makes a section resident: as it is, zeroed, or loaded. */
    method BringIn(i: nat) returns (ok: bool)
      requires Valid() && i < total
      modifies this`resident, this`peak, hasData, mappings
      ensures Valid() && View() == old(View())
      ensures forall j :: 0 <= j < total && j != i ==> mappings[j] == old(mappings[j])
      ensures ok ==> mappings[i] == Some(old(View())[i]) && hasData[..] == old(hasData[..])[i := true]
      ensures peak <= Max(old(peak), old(resident) + 1)
      ensures file.steady ==> ok
    {
      ok := true;
      if mappings[i].None? {
        if !hasData[i] {
          ok := AllocZeroed(i);
        } else {
          ok := LoadSection(i);
        }
      }
    }

    /** A section used for the first time starts as the zeros it stood for. */
    method AllocZeroed(i: nat) returns (ok: bool)
      requires Valid() && i < total && !hasData[i]
      modifies this`resident, this`peak, hasData, mappings
      ensures Valid() && View() == old(View())
      ensures ok ==>
        && mappings[..] == old(mappings[..])[i := Some(old(View())[i])] && resident == old(resident) + 1
        && hasData[..] == old(hasData[..])[i := true]
        && peak == if resident > old(peak) then resident else old(peak)
      ensures !ok ==> mappings[..] == old(mappings[..]) && resident == old(resident) && peak == old(peak)
      ensures file.steady ==> ok
    {
      ghost var maps := mappings[..];
      ok := AllocSection(i, true);
      ResidentUpdate(maps, i, Some(Zeros(sectSize)));
    }

    method SetMapping(i: nat, at: nat, val: Word)
      requires Valid() && i < total && at < sectSize && mappings[i].Some?
      modifies mappings
      ensures Valid() && View() == PutIn(old(View()), i, at, val)
      ensures forall j :: 0 <= j < total ==> mappings[j].Some? == old(mappings[j].Some?)
    {
      ghost var maps := mappings[..];
      var section: Section := mappings[i].value[at := val];
      ResidentUpdate(maps, i, Some(section));
      mappings[i] := Some(section);
    }

    // --------------------------------------------------------------- header

    function HeaderWith(isClean: bool): Header
      reads this
    {
      Header(MAGIC, isClean, indexOnly, vmalloc, currPos, fileSize, seqId, uuid, version, changed)
    }

    method WriteHeader(isClean: bool, ghost now: Saved) returns (ok: bool)
      modifies this`clean, file`image, file`trace
      ensures clean == isClean
      ensures file.image == if ok then CowImage.WriteHeader(old(file.image), HeaderWith(isClean)) else old(file.image)
      ensures file.trace == if ok then old(file.trace) + [Moment(file.image, now)] else old(file.trace)
      ensures file.steady ==> ok
    {
      clean := isClean;
      ok := file.Write(0, Encode(HeaderWith(isClean)), now);
    }

    method WriteHeaderDirty() returns (ok: bool)
      requires file.TraceSafe(sectSize, total)
      modifies this`clean, file`image, file`trace
      ensures file.TraceSafe(sectSize, total)
      ensures HeaderWith(true) == old(HeaderWith(true))
      ensures ok ==> !CleanHeader(file.image) && SameFrom(old(file.image), file.image, 8)
      ensures !ok ==> file.image == old(file.image)
      ensures file.steady ==> ok
    {
      ok := WriteHeader(false, saved);
      if ok {
        HeaderWritten(old(file.image), HeaderWith(false));
        DirtyMomentSafe(old(file.trace), Moment(file.image, saved), sectSize, total);
      }
    }

    method TakeHeader(h: Header, resetVmalloc: bool)
      requires h.magic == MAGIC
      modifies this`clean, this`indexOnly, this`vmalloc, this`currPos, this`fileSize, this`seqId, this`uuid,
               this`version, this`changed
      ensures HeaderWith(true) == h.(clean := true, vmalloc := h.vmalloc && !resetVmalloc)
    {
      clean, indexOnly, vmalloc := h.clean, h.indexOnly, h.vmalloc && !resetVmalloc;
      currPos, fileSize, seqId, uuid, version, changed := h.fpos, h.fsize, h.seqid, h.uuid, h.version, h.changed;
    }

    /** Takes over a header left clean in the wanted mode, and marks it dirty. */
    method OpenHeader(wantIndexOnly: bool, resetVmalloc: bool) returns (how: Opening)
      requires file.TraceSafe(sectSize, total)
      modifies this`clean, this`indexOnly, this`vmalloc, this`currPos, this`fileSize, this`seqId, this`uuid,
               this`version, this`changed, file`image, file`trace
      ensures file.TraceSafe(sectSize, total)
      ensures how != Unreadable ==> (how == Refused <==> !Acceptable(old(file.image), wantIndexOnly))
      ensures how == Opened ==> HeaderWith(true) == Taken(old(file.image), resetVmalloc)
      ensures how == Opened ==> !CleanHeader(file.image) && SameFrom(old(file.image), file.image, 8)
      ensures how != Opened ==>
        && file.image == old(file.image)
        && (HeaderWith(true) == old(HeaderWith(true)) || HeaderWith(true) == Taken(old(file.image), resetVmalloc))
      ensures file.steady ==> how == if Acceptable(old(file.image), wantIndexOnly) then Opened else Refused
    {
      var ok, words := file.Read(0, 8);
      if !ok { return Unreadable; }
      var h := Decode(words);
      if h.magic != MAGIC || !h.clean || h.indexOnly != wantIndexOnly { return Refused; }
      TakeHeader(h, resetVmalloc);
      ok := WriteHeaderDirty();
      how := if ok then Opened else Unmarked;
    }

    // ---------------------------------------------------- close, reopen, free

    /** A properly closed manager: the file alone holds everything. */
    ghost predicate Shut()
      reads this, hasData, mappings, file
    {
      && Geometry() && Cached() && !open
      && Holds(file.image, HeaderWith(true), View(), sectSize)
      && saved == Closed(HeaderWith(true), View(), file.image)
      && forall i :: 0 <= i < total ==> mappings[i].None?
    }

    method FreeMembers()
      modifies this`live, this`open, file`linked
      ensures !live && !open && !file.linked
    {
      live, open := false, false;
      file.Unlink();
    }

    /** Flush everything, then write a clean header. A close that fails removes
        the file; one that succeeds leaves a file that reads back as the state. */
    method SyncAndClose() returns (ok: bool)
      requires Valid()
      modifies this`open, this`live, this`clean, this`resident, this`saved, usage, mappings, file
      ensures file.TraceSafe(sectSize, total)
      ensures ok ==> Shut() && View() == old(View()) && SameFrom(old(file.image), file.image, DataStart())
      ensures !ok ==> !live && !open && !file.linked
      ensures file.steady ==> ok
    {
      ok := Flush();
      if !ok {
        FreeMembers();
        return;
      }
      ok := CloseHeader();
      if !ok {
        FreeMembers();
        return;
      }
      open := false;
    }

    /** Everything in memory goes to the file. */
    method Flush() returns (ok: bool)
      requires Valid()
      modifies this`resident, usage, mappings, file`image, file`trace
      ensures Valid() && View() == old(View()) && SameFrom(old(file.image), file.image, DataStart())
      ensures ok ==> forall i :: 0 <= i < total ==> mappings[i].None?
      ensures file.steady ==> ok
    {
      ok := SyncAndFreeSections(0);
    }

    /** What the clean header will do to the file of a flushed manager. */
    lemma CleanHeaderCloses()
      requires Valid() && forall i :: 0 <= i < total ==> mappings[i].None?
      ensures var img := CowImage.WriteHeader(file.image, HeaderWith(true));
              && Holds(img, HeaderWith(true), View(), sectSize)
              && ViewOf(hasData[..], mappings[..], img, sectSize) == View()
              && UnusedAreZero(hasData[..], img, sectSize)
              && SameFrom(file.image, img, DataStart())
              && CrashSafe(Moment(img, Closed(HeaderWith(true), View(), img)), sectSize, total)
    {
      FlushedView(hasData[..], mappings[..], file.image, sectSize);
      ClosedImage(file.image, HeaderWith(true), View(), sectSize);
      SameIndexSameView(hasData[..], mappings[..], file.image,
                        CowImage.WriteHeader(file.image, HeaderWith(true)), sectSize);
    }

    method CloseHeader() returns (ok: bool)
      requires Valid() && forall i :: 0 <= i < total ==> mappings[i].None?
      modifies this`clean, this`saved, file`image, file`trace
      ensures Geometry() && Cached() && View() == old(View())
      ensures SameFrom(old(file.image), file.image, DataStart())
      ensures ok ==>
        && Holds(file.image, HeaderWith(true), View(), sectSize)
        && saved == Closed(HeaderWith(true), View(), file.image)
      ensures file.steady ==> ok
    {
      CleanHeaderCloses();
      ghost var h, view := HeaderWith(true), View();
      ghost var img := CowImage.WriteHeader(file.image, h);
      ghost var now := Closed(h, view, img);
      SafeMomentAdded(file.trace, Moment(img, now), sectSize, total);
      ok := WriteHeader(true, now);
      assert HeaderWith(true) == h;
      if ok {
        assert file.image == img && ViewOf(hasData[..], mappings[..], img, sectSize) == view;
        saved := now;
      }
    }

    /** Opening the file again after a proper close gives everything back. */
    method Reopen() returns (ok: bool)
      requires Shut()
      modifies this`open, this`clean, this`indexOnly, this`vmalloc, this`currPos, this`fileSize, this`seqId,
               this`uuid, this`version, this`changed, file`image, file`trace
      ensures HeaderWith(true) == old(HeaderWith(true))
      ensures ok ==> Valid() && View() == old(View()) && SameFrom(old(file.image), file.image, 8)
      ensures !ok ==> Shut() && file.image == old(file.image)
      ensures file.steady ==> ok
    {
      ok := *;
      ok := ok || file.steady;
      if !ok { return; }
      open := true;
      ghost var was := file.image;
      var how := OpenHeader(indexOnly, false);
      ok := how == Opened;
      if ok {
        forall i | 0 <= i < total
          ensures SectionOf(file.image, sectSize, i) == SectionOf(was, sectSize, i)
        {
          ReadSame(was, file.image, SectionAt(sectSize, i), sectSize);
        }
      } else {
        open := false;
      }
    }

    /** Snapshot data behind the index is given up; the index is not touched. */
    method TruncateToIndex() returns (ok: bool)
      requires Valid()
      modifies this`indexOnly, this`fileSize, file`image, file`trace
      ensures Valid() && View() == old(View()) && indexOnly
      ensures ok ==> fileSize == DataStart() * 8 && forall w :: w >= DataStart() ==> Peek(file.image, w) == 0
      ensures !ok ==> fileSize == old(fileSize) && file.image == old(file.image)
      ensures file.steady ==> ok
    {
      indexOnly := true;
      ghost var was := file.image;
      ok := file.Cut(DataStart(), saved);
      if ok {
        fileSize := DataStart() * 8;
        IndexUntouched(was, file.image, sectSize, total);
        DirtyMomentSafe(old(file.trace), Moment(file.image, saved), sectSize, total);
      }
    }

    // ----------------------------------------------------------------- data

    /** The stored pages, block by block. */
    ghost function Store(): map<nat, Page>
      requires Geometry() && Cached()
      reads this, hasData, mappings, file
    {
      StoreOf(View(), sectSize, Capacity(), file.image)
    }

    /** An open manager in snapshot mode. */
    ghost predicate Storing()
      reads this, hasData, mappings, file
    {
      Valid() && sectSize % 512 == 0 && StoreOk(View(), sectSize, DataStart() / 512, currPos)
    }

    /** Lookups may evict sections; the store does not notice. */
    method LookUp(block: nat) returns (ok: bool, mapping: Word)
      requires Storing() && block < Capacity()
      modifies this`resident, this`peak, hasData, usage, mappings, file`image, file`trace
      ensures Storing() && View() == old(View()) && Store() == old(Store())
      ensures ok ==> (mapping != 0 <==> block in Store())
      ensures ok && mapping != 0 ==> DataAt(file.image, mapping) == Store()[block]
      ensures ok && old(Bounded()) ==> Bounded()
      ensures file.steady ==> ok
    {
      ok, mapping := ReadMapping(block);
      AlignedStart(sectSize, total);
      StoreKept(View(), sectSize, Capacity(), DataStart() / 512, currPos, old(file.image), file.image);
    }

    /** A page written behind the index leaves the index and the header alone. */
    lemma DataWriteKeepsIndex(page: Page)
      requires Valid() && currPos * 512 >= DataStart()
      ensures var img := WriteWords(file.image, currPos * 512, page);
              && ViewOf(hasData[..], mappings[..], img, sectSize) == View()
              && UnusedAreZero(hasData[..], img, sectSize)
              && !CleanHeader(img)
    {
      var img := WriteWords(file.image, currPos * 512, page);
      IndexUntouched(file.image, img, sectSize, total);
      SameIndexSameView(hasData[..], mappings[..], file.image, img, sectSize);
    }

    method WriteData(page: Page) returns (ok: bool)
      requires Valid() && |page| == 512 && currPos * 512 >= DataStart()
      modifies this`currPos, file`image, file`trace
      ensures Valid() && View() == old(View())
      ensures file.image == if ok then WriteWords(old(file.image), old(currPos) * 512, page) else old(file.image)
      ensures currPos == if ok then old(currPos) + 1 else old(currPos)
      ensures old(currPos) * 4096 >= fileSize ==> !ok
      ensures file.steady ==> (ok <==> old(currPos) * 4096 < fileSize)
    {
      if currPos * 4096 >= fileSize { return false; }
      DataWriteKeepsIndex(page);
      ghost var now := Moment(WriteWords(file.image, currPos * 512, page), saved);
      DirtyMomentSafe(file.trace, now, sectSize, total);
      ok := file.Write(currPos * 512, page, saved);
      if ok { currPos := currPos + 1; }
    }

    /** Stores a block's old page unless it has one: the first page wins. Stored
        pages survive failures too. */
    method WriteCurrent(block: nat, page: Page) returns (ok: bool)
      requires Storing() && block < Capacity() && |page| == 512
      modifies this`resident, this`peak, this`changed, this`currPos, hasData, usage, mappings, file`image, file`trace
      ensures Valid() && (old(CountOk()) ==> CountOk())
      ensures ok ==>
        && Storing()
        && Store() == if block in old(Store()) then old(Store()) else old(Store())[block := page]
      ensures ok && block !in old(Store()) ==>
        InView(View(), sectSize, block) && At(View(), sectSize, block) == old(currPos)
      ensures Survives(old(Store()), Store())
      ensures ok && old(Bounded()) ==> Bounded()
      ensures currPos == if ok && block !in old(Store()) then old(currPos) + 1 else old(currPos)
      ensures file.steady ==> (ok <==> block in old(Store()) || old(currPos) * 4096 < fileSize)
    {
      var mapping;
      ok, mapping := LookUp(block);
      if !ok || mapping != 0 { return; }
      ok := WriteNew(block, page);
    }

    /** What the store will be once the next free data block holds this page. */
    ghost function StoreWith(page: Page): map<nat, Page>
      requires Geometry() && Cached()
      reads this, hasData, mappings, file
    {
      StoreOf(View(), sectSize, Capacity(), WriteWords(file.image, currPos * 512, page))
    }

    lemma ReadyToMap(block: nat)
      requires Storing() && block < Capacity() && block !in Store()
      ensures CowImage.Uniform(View(), sectSize) && InView(View(), sectSize, block)
      ensures !Mapped(View(), sectSize, block) && DataStart() / 512 * 512 == DataStart()
    {
      InsideView(block);
      AlignedStart(sectSize, total);
    }

    /** The parts of WriteMapping's contract that the store rests on. */
    method MapTo(block: nat, next: nat) returns (ok: bool)
      requires Valid() && block < Capacity() && next > 0
      modifies this`resident, this`peak, this`changed, hasData, usage, mappings, file`image, file`trace
      ensures Valid() && SameFrom(old(file.image), file.image, DataStart()) && InView(old(View()), sectSize, block)
      ensures View() == Put(old(View()), sectSize, block, next) || (!ok && View() == old(View()))
      ensures old(CountOk()) ==> CountOk()
      ensures ok && old(Bounded()) ==> Bounded()
      ensures file.steady ==> ok
    {
      ok := WriteMapping(block, next);
    }

    method MapNew(block: nat, ghost page: Page) returns (ok: bool)
      requires Storing() && block < Capacity() && block !in Store() && |page| == 512
      modifies this`resident, this`peak, this`changed, hasData, usage, mappings, file`image, file`trace
      ensures Valid() && (old(CountOk()) ==> CountOk()) && Survives(old(Store()), Store())
      ensures ok ==>
        && StoreOk(View(), sectSize, DataStart() / 512, currPos + 1) && currPos * 512 >= DataStart()
        && StoreWith(page) == old(Store())[block := page]
        && InView(View(), sectSize, block) && At(View(), sectSize, block) == currPos
      ensures ok && old(Bounded()) ==> Bounded()
      ensures file.steady ==> ok
    {
      ghost var view, img, first := View(), file.image, DataStart() / 512;
      ReadyToMap(block);
      ok := MapTo(block, currPos);
      NewMapping(view, View(), sectSize, Capacity(), first, currPos, block, img, file.image, page);
    }

    /** The page of a block that is mapped already: with it the store has the block. */
    method WritePage(page: Page) returns (ok: bool)
      requires Valid() && sectSize % 512 == 0 && |page| == 512 && currPos * 512 >= DataStart()
      requires StoreOk(View(), sectSize, DataStart() / 512, currPos + 1)
      modifies this`currPos, file`image, file`trace
      ensures Valid() && View() == old(View()) && (old(CountOk()) ==> CountOk()) && (old(Bounded()) ==> Bounded())
      ensures Store() == if ok then old(StoreWith(page)) else old(Store())
      ensures ok ==> Storing()
      ensures currPos == if ok then old(currPos) + 1 else old(currPos)
      ensures file.steady ==> (ok <==> old(currPos) * 4096 < fileSize)
    {
      ok := WriteData(page);
    }

    method WriteNew(block: nat, page: Page) returns (ok: bool)
      requires Storing() && block < Capacity() && |page| == 512 && block !in Store()
      modifies this`resident, this`peak, this`changed, this`currPos, hasData, usage, mappings, file`image, file`trace
      ensures Valid() && (old(CountOk()) ==> CountOk()) && Survives(old(Store()), Store())
      ensures ok ==> Storing() && Store() == old(Store())[block := page]
      ensures ok ==> InView(View(), sectSize, block) && At(View(), sectSize, block) == old(currPos)
      ensures ok && old(Bounded()) ==> Bounded()
      ensures currPos == if ok then old(currPos) + 1 else old(currPos)
      ensures file.steady ==> (ok <==> old(currPos) * 4096 < fileSize)
    {
      ok := MapNew(block, page);
      if ok { ok := WritePage(page); }
    }

    /** Words [off, off + n) of the data block a mapping points to; the offset
        must lie in the block. */
    method ReadData(mapping: Word, off: nat, n: nat) returns (ok: bool, words: seq<Word>)
      ensures ok ==> off < 512 && words == ReadWords(file.image, mapping * 512 + off, n)
      ensures ok && off + n <= 512 ==> words == DataAt(file.image, mapping)[off..off + n]
      ensures file.steady ==> (ok <==> off < 512)
    {
      if off >= 512 { return false, []; }
      ok, words := file.Read(mapping * 512 + off, n);
    }

    /** Changing the cache size takes effect at the next cleanup; a cache within
        its bound stays within a larger one. */
    method ModifyCacheSize(cacheBytes: nat)
      requires Geometry()
      modifies this`allowed
      ensures allowed == AllowedSections(cacheBytes, total)
      ensures allowed >= old(allowed) && old(Bounded()) ==> Bounded()
    {
      allowed := AllowedSections(cacheBytes, total);
    }

    /** Starts a new account of the most sections resident. */
    ghost method ForgetPeak()
      requires Valid()
      modifies this`peak
      ensures Valid() && peak == resident && (Within() ==> Bounded()) && Within() == old(Within())
    {
      ResidentAreTrue(mappings[..]);
      peak := resident;
    }
  }
}
