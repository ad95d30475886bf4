/** Creating and reloading a copy-on-write manager, and what survives a close. */
module CowSetup {
  import opened Blocks
  import opened CowImage
  import opened CowDisk
  import opened CowStore
  import opened CowManager

  function Pow2(n: nat): (p: nat)
    ensures p > 0
  {
    if n == 0 then 1 else 2 * Pow2(n - 1)
  }

  lemma {:induction false} Pow2Grows(m: nat, n: nat)
    requires m < n
    ensures Pow2(m) < Pow2(n)
  {
    if m + 1 < n { Pow2Grows(m, n - 1); }
  }

  lemma {:induction false} Pow2Above(n: nat)
    ensures n < Pow2(n)
  {
    if n > 0 { Pow2Above(n - 1); }
  }

  /** log2 of the pages that hold this many bytes, rounded up, from `order` on. */
  function OrderFrom(bytes: nat, order: nat): (o: nat)
    requires order <= bytes
    decreases bytes - order
  {
    if bytes <= 4096 * Pow2(order) then order
    else
      Pow2Above(order);
      OrderFrom(bytes, order + 1)
  }

  function GetOrder(bytes: nat): nat { OrderFrom(bytes, 0) }

  function NumSegments(x: nat, log: nat): nat {
    (x + Pow2(log) - 1) / Pow2(log)
  }

  function TotalSections(elements: nat, sectSize: nat): nat {
    NumSegments(elements, GetOrder(sectSize * 8) + 9)
  }

  /** Section sizes that fill a power-of-two number of pages, as the driver's. */
  predicate PageSized(sectSize: nat, order: nat) {
    sectSize == 512 * Pow2(order)
  }

  lemma {:induction false} OrderOfPages(bytes: nat, from: nat, order: nat)
    requires from <= order && bytes == 4096 * Pow2(order) && from <= bytes
    ensures OrderFrom(bytes, from) == order
    decreases order - from
  {
    if from < order {
      Pow2Grows(from, order);
      Pow2Above(from);
      OrderOfPages(bytes, from + 1, order);
    }
  }

  lemma {:induction false} Pow2Sum(a: nat)
    ensures Pow2(a + 9) == 512 * Pow2(a)
  {
    if a == 0 {
      assert Pow2(9) == 2 * Pow2(8) && Pow2(8) == 2 * Pow2(7) && Pow2(7) == 2 * Pow2(6) && Pow2(6) == 2 * Pow2(5);
      assert Pow2(5) == 2 * Pow2(4) && Pow2(4) == 2 * Pow2(3) && Pow2(3) == 2 * Pow2(2) && Pow2(2) == 4;
    } else {
      Pow2Sum(a - 1);
    }
  }

  lemma CeilProduct(x: nat, s: nat)
    requires s > 0
    ensures x <= (x + s - 1) / s * s < x + s
  {
    var n := (x + s - 1) / s;
    assert x + s - 1 == n * s + (x + s - 1) % s;
  }

  /** The computed number of sections is the least that holds every element. */
  lemma SectionsHoldDevice(elements: nat, sectSize: nat, order: nat)
    requires PageSized(sectSize, order)
    ensures TotalSections(elements, sectSize) == (elements + sectSize - 1) / sectSize
    ensures elements <= TotalSections(elements, sectSize) * sectSize < elements + sectSize
  {
    OrderOfPages(sectSize * 8, 0, order);
    Pow2Sum(order);
    CeilProduct(elements, sectSize);
  }

  /** The index of an element fits exactly when it is below the rounded-up size.
      For a device whose size is not a whole number of blocks the driver sizes
      the index by the whole blocks only: the last, partial block then fits if
      and only if the whole blocks do not fill their last section. */
  lemma PartialBlockFits(sectors: nat, sectSize: nat, order: nat)
    requires PageSized(sectSize, order) && sectors % 8 != 0
    ensures var elements := sectors / 8;
            var last := (sectors - 1) / 8;
            last < TotalSections(elements, sectSize) * sectSize <==> elements % sectSize != 0
  {
    var elements := sectors / 8;
    SectionsHoldDevice(elements, sectSize, order);
    RoomForOneMore(elements, TotalSections(elements, sectSize), sectSize);
  }

  lemma RoomForOneMore(x: nat, n: nat, s: nat)
    requires s > 0 && x <= n * s < x + s
    ensures x < n * s <==> x % s != 0
  {
    var q, r := x / s, x % s;
    assert x == q * s + r;
    if r == 0 { Multiple(q, n, s); } else { NotMultiple(q, r, n, s); }
  }

  lemma Multiple(q: nat, n: nat, s: nat)
    requires s > 0 && q * s <= n * s < q * s + s
    ensures n * s == q * s
  {
    ProductMonotone(q + 1, n, s);
    assert (q + 1) * s == q * s + s;
    ProductMonotone(n, q, s);
  }

  lemma NotMultiple(q: nat, r: nat, n: nat, s: nat)
    requires 0 < r < s && q * s + r <= n * s
    ensures q * s + r < n * s
  {
    ProductMonotone(q + 1, n, s);
    ProductMonotone(n, q, s);
    assert (q + 1) * s == q * s + s;
  }

  // -------------------------------------------------------------- new manager

  lemma EmptyFile()
    ensures !CleanHeader(map[])
    ensures forall sectSize, total: nat :: CrashSafe(Moment(map[], NeverClosed), sectSize, total)
  {
    assert ReadWords(map[], 0, 8)[0] == 0;
  }

  lemma EmptyView(view: seq<Section>, sectSize: nat, blocks: nat, img: Image)
    requires forall i :: 0 <= i < |view| ==> view[i] == Zeros(sectSize)
    ensures Changed(view) == 0
    ensures forall p: nat :: !Mapped(view, sectSize, p)
    ensures StoreOf(view, sectSize, blocks, img) == map[]
  {
    ZerosUnchanged(|view|, sectSize);
    assert view == seq(|view|, i => Zeros(sectSize));
  }

  /** A cache in which nothing is resident. */
  lemma FreshCache(has: seq<bool>, maps: seq<Option<Section>>, sectSize: nat)
    requires |has| == |maps| && forall i :: 0 <= i < |maps| ==> maps[i].None?
    ensures CacheOk(has, maps, sectSize, 0)
  {
    NoneResident(maps);
  }

  /** Nothing in memory, and nothing in the file. */
  lemma EmptyCache(has: seq<bool>, maps: seq<Option<Section>>, sectSize: nat)
    requires |has| == |maps| && forall i :: 0 <= i < |maps| ==> !has[i] && maps[i].None?
    ensures forall i :: 0 <= i < |maps| ==> ViewOf(has, maps, map[], sectSize)[i] == Zeros(sectSize)
    ensures UnusedAreZero(has, map[], sectSize)
  {
    forall i | 0 <= i < |maps|
      ensures SectionOf(map[], sectSize, i) == Zeros(sectSize)
    {
    }
  }

  lemma NewManagerStores(cm: Manager)
    requires cm.Valid() && cm.sectSize % 512 == 0 && cm.changed == 0
    requires forall i :: 0 <= i < cm.total ==> cm.View()[i] == Zeros(cm.sectSize)
    requires cm.currPos == cm.DataStart() / 512
    ensures cm.Storing() && cm.Store() == map[] && cm.CountOk()
  {
    AlignedStart(cm.sectSize, cm.total);
    EmptyView(cm.View(), cm.sectSize, cm.Capacity(), cm.file.image);
  }

  lemma BlankManager(cm: Manager)
    requires cm.Geometry() && cm.live && cm.open && cm.sectSize > 0 && cm.resident == 0 && cm.peak == 0
    requires cm.file.image == map[] && cm.file.trace == [Moment(map[], NeverClosed)]
    requires forall i :: 0 <= i < cm.total ==> !cm.hasData[i] && cm.usage[i] == 0 && cm.mappings[i].None?
    ensures cm.Valid() && cm.Bounded() && forall i :: 0 <= i < cm.total ==> cm.View()[i] == Zeros(cm.sectSize)
  {
    EmptyFile();
    FreshCache(cm.hasData[..], cm.mappings[..], cm.sectSize);
    EmptyCache(cm.hasData[..], cm.mappings[..], cm.sectSize);
    ResidentAreTrue(cm.mappings[..]);
  }

  method Blank(file: CowFile, sectSize: nat, total: nat, allowed: nat, fileMax: nat,
               uuid: (nat, nat), seqid: nat) returns (cm: Manager)
    requires sectSize > 0 && file.image == map[] && file.trace == [Moment(map[], NeverClosed)]
    ensures fresh(cm) && fresh(cm.hasData) && fresh(cm.usage) && fresh(cm.mappings) && cm.file == file
    ensures cm.sectSize == sectSize && cm.total == total && cm.allowed == allowed
    ensures cm.Valid() && cm.Bounded() && cm.Unused() && cm.version == 1 && cm.changed == 0
    ensures cm.fileSize == fileMax && cm.seqId == seqid && cm.uuid == uuid && !cm.indexOnly
    ensures cm.currPos == cm.DataStart() / 512
    ensures forall i :: 0 <= i < total ==> cm.View()[i] == Zeros(sectSize)
  {
    cm := new Manager(file, sectSize, total, allowed);
    cm.version, cm.changed, cm.fileSize, cm.seqId, cm.uuid := 1, 0, fileMax, seqid, uuid;
    cm.clean, cm.indexOnly, cm.vmalloc := false, false, false;
    cm.currPos := cm.DataStart() / 512;
    BlankManager(cm);
  }

  lemma SameBehindHeader(has: seq<bool>, maps: seq<Option<Section>>, a: Image, b: Image, sectSize: nat)
    requires |has| == |maps| && SameFrom(a, b, 8)
    ensures SameSections(a, b, sectSize, |has|)
    ensures ViewOf(has, maps, a, sectSize) == ViewOf(has, maps, b, sectSize)
    ensures UnusedAreZero(has, a, sectSize) ==> UnusedAreZero(has, b, sectSize)
  {
    forall i | 0 <= i < |has|
      ensures SectionOf(a, sectSize, i) == SectionOf(b, sectSize, i)
    {
      ReadSame(a, b, SectionAt(sectSize, i), sectSize);
    }
    SameIndexSameView(has, maps, a, b, sectSize);
  }

  /** The first header of an empty manager. */
  method FirstHeader(cm: Manager) returns (ok: bool)
    requires cm.Valid() && cm.sectSize % 512 == 0 && cm.changed == 0 && cm.currPos == cm.DataStart() / 512
    requires forall i :: 0 <= i < cm.total ==> cm.View()[i] == Zeros(cm.sectSize)
    modifies cm`clean, cm.file`image, cm.file`trace
    ensures ok ==> cm.Storing() && cm.Store() == map[] && cm.CountOk()
    ensures cm.file.steady ==> ok
  {
    ghost var was, view := cm.file.image, cm.View();
    ok := cm.WriteHeaderDirty();
    if ok {
      SameBehindHeader(cm.hasData[..], cm.mappings[..], was, cm.file.image, cm.sectSize);
      assert cm.View() == view;
      NewManagerStores(cm);
    }
  }

  /** A file of its own and a manager over it, or nothing. */
  method Create(sectSize: nat, total: nat, allowed: nat, fileMax: nat, uuid: (nat, nat), seqid: nat, steady: bool)
    returns (cm: Manager?)
    requires sectSize > 0 && sectSize % 512 == 0
    ensures cm != null ==>
      && fresh(cm) && fresh(cm.file) && fresh(cm.hasData) && fresh(cm.usage) && fresh(cm.mappings)
      && cm.sectSize == sectSize && cm.total == total && cm.allowed == allowed
      && cm.Storing() && cm.Store() == map[] && cm.CountOk() && cm.Bounded() && cm.Unused()
      && cm.version == 1 && cm.seqId == seqid && !cm.indexOnly && cm.fileSize == fileMax && cm.uuid == uuid
      && cm.file.steady == steady
    ensures steady ==> cm != null
  {
    var file := new CowFile(steady);
    var m := Blank(file, sectSize, total, allowed, fileMax, uuid, seqid);
    var room: bool := *;
    if !room && !steady {
      file.Unlink();
      return null;
    }
    var ok := FirstHeader(m);
    if !ok {
      file.Unlink();
      return null;
    }
    return m;
  }

  /** A new snapshot's file: an empty index and an empty store. */
  method Init(elements: nat, sectSize: nat, ghost order: nat, cacheBytes: nat, fileMax: nat,
              uuid: Option<(nat, nat)>, random: (nat, nat), seqid: nat, steady: bool) returns (cm: Manager?)
    requires PageSized(sectSize, order)
    ensures cm != null ==>
      && fresh(cm) && fresh(cm.file) && fresh(cm.hasData) && fresh(cm.usage) && fresh(cm.mappings)
      && cm.total == TotalSections(elements, sectSize) && elements <= cm.Capacity()
      && cm.Storing() && cm.Store() == map[] && cm.CountOk() && cm.Bounded() && cm.Unused()
      && cm.allowed == AllowedSections(cacheBytes, cm.total)
      && cm.version == 1 && cm.seqId == seqid && !cm.indexOnly && cm.fileSize == fileMax
      && cm.uuid == (if uuid.Some? then uuid.value else random) && cm.file.steady == steady
    ensures steady ==> cm != null
  {
    var found: bool := *;
    if !found && !steady { return null; }
    var total := TotalSections(elements, sectSize);
    SectionsHoldDevice(elements, sectSize, order);
    cm := Create(sectSize, total, AllowedSections(cacheBytes, total), fileMax,
                 if uuid.Some? then uuid.value else random, seqid, steady);
  }

  // ------------------------------------------------------------------- reload

  /** The last moment of a file's history. */
  ghost function Last(file: CowFile): Moment
    requires file.Recorded()
    reads file
  {
    file.trace[|file.trace| - 1]
  }

  lemma AllFromFile(has: seq<bool>, maps: seq<Option<Section>>, img: Image, sectSize: nat)
    requires |has| == |maps|
    requires forall i :: 0 <= i < |has| ==> has[i] && maps[i].None?
    ensures ViewOf(has, maps, img, sectSize) == IndexOf(img, sectSize, |has|)
    ensures CacheOk(has, maps, sectSize, 0) && UnusedAreZero(has, img, sectSize)
  {
    NoneResident(maps);
  }

  lemma SameIndexBehindHeader(a: Image, b: Image, sectSize: nat, total: nat)
    requires SameFrom(a, b, 8)
    ensures IndexOf(a, sectSize, total) == IndexOf(b, sectSize, total)
  {
    forall i | 0 <= i < total
      ensures SectionOf(a, sectSize, i) == SectionOf(b, sectSize, i)
    {
      ReadSame(a, b, SectionAt(sectSize, i), sectSize);
    }
  }

  method MarkAllLoaded(cm: Manager)
    requires cm.Geometry()
    modifies cm.hasData
    ensures forall i :: 0 <= i < cm.total ==> cm.hasData[i]
  {
    for i := 0 to cm.total
      invariant forall j :: 0 <= j < i ==> cm.hasData[j]
    {
      cm.hasData[i] := true;
    }
  }

  /** With every section marked as having data, the cache stands for the file. */
  lemma LoadedLater(m: Manager, was: Image)
    requires m.Geometry() && m.live && m.open && m.sectSize > 0 && m.resident == 0 && m.peak == 0
    requires forall i :: 0 <= i < m.total ==> m.hasData[i] && m.mappings[i].None? && m.usage[i] == 0
    requires m.file.TraceSafe(m.sectSize, m.total) && !CleanHeader(m.file.image) && SameFrom(was, m.file.image, 8)
    ensures m.Valid() && m.Bounded() && m.View() == IndexOf(was, m.sectSize, m.total)
  {
    AllFromFile(m.hasData[..], m.mappings[..], m.file.image, m.sectSize);
    ResidentAreTrue(m.mappings[..]);
    SameIndexBehindHeader(was, m.file.image, m.sectSize, m.total);
  }

  method AllFromDisk(m: Manager, ghost was: Image)
    requires m.Geometry() && m.live && m.open && m.sectSize > 0 && m.resident == 0 && m.peak == 0 && m.Unused()
    requires m.file.TraceSafe(m.sectSize, m.total) && !CleanHeader(m.file.image) && SameFrom(was, m.file.image, 8)
    modifies m.hasData
    ensures m.Valid() && m.Bounded() && m.Unused() && m.View() == IndexOf(was, m.sectSize, m.total)
  {
    MarkAllLoaded(m);
    LoadedLater(m, was);
  }

  /** An empty cache over an existing file, whose header is taken over. */
  method OpenExisting(file: CowFile, sectSize: nat, total: nat, allowed: nat, indexOnly: bool)
    returns (m: Manager, how: Opening)
    requires sectSize > 0 && file.TraceSafe(sectSize, total)
    modifies file`image, file`trace
    ensures fresh(m) && fresh(m.hasData) && fresh(m.usage) && fresh(m.mappings) && m.file == file
    ensures m.sectSize == sectSize && m.total == total && m.allowed == allowed
    ensures m.Geometry() && m.live && m.open && m.resident == 0 && m.peak == 0 && m.Unused()
    ensures file.TraceSafe(sectSize, total) && SameFrom(old(file.image), file.image, 8)
    ensures how != Unreadable ==> (how == Refused <==> !Acceptable(old(file.image), indexOnly))
    ensures how != Opened ==> file.image == old(file.image)
    ensures how == Opened ==> !CleanHeader(file.image) && m.HeaderWith(true) == Taken(old(file.image), true)
    ensures file.steady ==> how == if Acceptable(old(file.image), indexOnly) then Opened else Refused
  {
    m := new Manager(file, sectSize, total, allowed);
    m.saved := Last(file).saved;
    how := m.OpenHeader(indexOnly, true);
  }

  /** How a reload ends. */
  datatype Reloading = Reloaded | NotFound | BadHeader(how: Opening) | NoRoom

  /** Reload either gives up or restores exactly the state of the file's last
      proper close, whatever happened to it since. A file that was good is good
      afterwards unless it was reloaded, or memory for the sections ran out: that
      happens after the header was marked, so the next reload refuses the file. */
  method Reload(file: CowFile, elements: nat, sectSize: nat, cacheBytes: nat, indexOnly: bool)
    returns (cm: Manager?, why: Reloading)
    requires sectSize > 0 && file.TraceSafe(sectSize, TotalSections(elements, sectSize))
    modifies file`image, file`trace
    ensures cm != null <==> why == Reloaded
    ensures why == BadHeader(Refused) ==> !Acceptable(old(file.image), indexOnly)
    ensures !Acceptable(old(file.image), indexOnly) ==>
      why == BadHeader(Refused) || why == BadHeader(Unreadable) || why == NotFound
    ensures cm != null ==>
      && fresh(cm) && fresh(cm.hasData) && fresh(cm.usage) && fresh(cm.mappings) && cm.file == file
      && cm.sectSize == sectSize && cm.total == TotalSections(elements, sectSize)
      && cm.Valid() && cm.Bounded() && cm.Unused() && cm.allowed == AllowedSections(cacheBytes, cm.total)
      && cm.View() == IndexOf(old(file.image), sectSize, cm.total)
      && cm.HeaderWith(true) == Taken(old(file.image), true)
    ensures cm != null ==>
      && old(Last(file)).saved.Closed?
      && cm.View() == old(Last(file)).saved.view
      && cm.HeaderWith(true) == old(Last(file)).saved.header.(vmalloc := false)
    ensures SameFrom(old(file.image), file.image, 8)
    ensures why != Reloaded && why != NoRoom ==> file.image == old(file.image)
    ensures old(Acceptable(file.image, indexOnly)) ==>
      (Acceptable(file.image, indexOnly) <==> why != Reloaded && why != NoRoom)
    ensures file.steady ==> why == if Acceptable(old(file.image), indexOnly) then Reloaded else BadHeader(Refused)
  {
    var found: bool := *;
    if !found && !file.steady { return null, NotFound; }
    ghost var was := file.image;
    ghost var moment := Last(file);
    assert CrashSafe(moment, sectSize, TotalSections(elements, sectSize));
    var total := TotalSections(elements, sectSize);
    var m, how := OpenExisting(file, sectSize, total, AllowedSections(cacheBytes, total), indexOnly);
    if how != Opened { return null, BadHeader(how); }
    var room: bool := *;
    if !room && !file.steady { return null, NoRoom; }
    AllFromDisk(m, was);
    return m, Reloaded;
  }

  // ------------------------------------------------------ close and come back

  lemma SameStore(cm: Manager, view: seq<Section>, img: Image)
    requires cm.Valid() && cm.View() == view
    requires cm.sectSize % 512 == 0 && StoreOk(view, cm.sectSize, cm.DataStart() / 512, cm.currPos)
    requires SameFrom(img, cm.file.image, cm.DataStart())
    ensures cm.Storing() && cm.Store() == StoreOf(view, cm.sectSize, cm.Capacity(), img)
  {
    AlignedStart(cm.sectSize, cm.total);
    StoreKept(view, cm.sectSize, cm.Capacity(), cm.DataStart() / 512, cm.currPos, img, cm.file.image);
  }

  /** Dormant and back: closing and reopening changes nothing a caller can see. */
  method CloseThenReopen(cm: Manager) returns (ok: bool)
    requires cm.Valid()
    modifies cm, cm.usage, cm.mappings, cm.file
    ensures ok ==>
      && cm.Valid() && cm.View() == old(cm.View())
      && cm.HeaderWith(true) == old(cm.HeaderWith(true))
      && (old(cm.CountOk()) ==> cm.CountOk())
      && (old(cm.Storing()) ==> cm.Storing() && cm.Store() == old(cm.Store()))
    ensures cm.file.steady ==> ok
  {
    ghost var view, img := cm.View(), cm.file.image;
    ok := cm.SyncAndClose();
    if !ok { return; }
    ok := cm.Reopen();
    if ok && old(cm.Storing()) { SameStore(cm, view, img); }
  }

  /** Shutdown and reload, with the same device size and mode. */
  method CloseThenReload(cm: Manager, elements: nat, cacheBytes: nat) returns (cm': Manager?)
    requires cm.Valid() && cm.total == TotalSections(elements, cm.sectSize)
    modifies cm, cm.usage, cm.mappings, cm.file
    ensures cm' != null ==>
      && cm'.Valid() && cm'.View() == old(cm.View())
      && cm'.HeaderWith(true) == old(cm.HeaderWith(true)).(vmalloc := false)
      && (old(cm.CountOk()) ==> cm'.CountOk())
      && (old(cm.Storing()) ==> cm'.Storing() && cm'.Store() == old(cm.Store()))
    ensures cm.file.steady ==> cm' != null
  {
    ghost var view, img := cm.View(), cm.file.image;
    var ok := cm.SyncAndClose();
    if !ok { return null; }
    var why;
    cm', why := Reload(cm.file, elements, cm.sectSize, cacheBytes, cm.indexOnly);
    if cm' != null && old(cm.Storing()) { SameStore(cm', view, img); }
  }
}
