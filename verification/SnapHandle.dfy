/** The copy-on-write thread's handlers: snapshot reads put together from the
    base device and the store, and captured clones put into the store. Offsets
    and lengths are in sectors: every segment is a whole number of them. */
module SnapHandle {
  import opened Blocks
  import opened CowImage
  import opened CowStore
  import opened CowManager

  datatype Mode = Unknown | CowFile | BaseDevice | Mixed

  function Sum(segs: seq<nat>): nat {
    if segs == [] then 0 else Sum(segs[..|segs| - 1]) + segs[|segs| - 1]
  }

  lemma {:induction false} SumPrefix(segs: seq<nat>, i: nat)
    requires i < |segs|
    ensures Sum(segs[..i + 1]) == Sum(segs[..i]) + segs[i] && Sum(segs[..i + 1]) <= Sum(segs)
    decreases |segs|
  {
    assert segs[..i + 1][..i] == segs[..i];
    if i + 1 < |segs| {
      var rest := segs[..|segs| - 1];
      SumPrefix(rest, i);
      assert rest[..i + 1] == segs[..i + 1] && rest[..i] == segs[..i];
    } else {
      assert segs[..i + 1] == segs;
    }
  }

  // ----------------------------------------------------------------- fast paths

  /** Block b holds one of the sectors [from, to). */
  predicate Within(from: nat, to: nat, b: nat) {
    from < to && from / 8 <= b <= (to - 1) / 8
  }

  ghost predicate AllStored(store: map<nat, Page>, from: nat, to: nat) {
    forall b: nat :: Within(from, to, b) ==> b in store
  }

  ghost predicate NoneStored(store: map<nat, Page>, from: nat, to: nat) {
    forall b: nat :: Within(from, to, b) ==> b !in store
  }

  /** The mode says exactly where sectors [from, to) are. */
  ghost predicate Describes(mode: Mode, store: map<nat, Page>, from: nat, to: nat) {
    match mode
    case Unknown => from == to
    case CowFile => from < to && AllStored(store, from, to)
    case BaseDevice => from < to && NoneStored(store, from, to)
    case Mixed => from < to && !AllStored(store, from, to) && !NoneStored(store, from, to)
  }

  /** The next chunk, inside one block, is where the others are, or not. */
  function NextMode(mode: Mode, stored: bool): Mode {
    var here := if stored then CowFile else BaseDevice;
    if mode == Unknown || mode == here then here else Mixed
  }

  lemma ExtendMode(mode: Mode, store: map<nat, Page>, from: nat, curr: nat, end: nat)
    requires from <= curr < end && curr / 8 == (end - 1) / 8
    requires mode != Mixed && Describes(mode, store, from, curr)
    ensures Describes(NextMode(mode, curr / 8 in store), store, from, end)
  {
    assert Within(from, end, curr / 8);
    forall b: nat | Within(from, end, b)
      ensures b == curr / 8 || (from < curr && Within(from, curr, b))
    {
    }
    if from < curr {
      assert Within(from, curr, (curr - 1) / 8) && Within(from, end, (curr - 1) / 8);
    }
  }

  lemma MixedStays(store: map<nat, Page>, from: nat, end: nat, last: nat)
    requires end <= last && Describes(Mixed, store, from, end)
    ensures Describes(Mixed, store, from, last)
  {
    assert forall b: nat :: Within(from, end, b) ==> Within(from, last, b);
  }

  /** The next chunk, up to `end`; once data is mixed it is so up to `last`. */
  method Classify(cm: Manager, mode: Mode, ghost from: nat, curr: nat, ghost end: nat, ghost last: nat)
    returns (ok: bool, next: Mode)
    requires cm.Storing() && curr / 8 < cm.Capacity()
    requires from <= curr < end <= last && curr / 8 == (end - 1) / 8
    requires mode != Mixed && Describes(mode, cm.Store(), from, curr)
    modifies cm`resident, cm`peak, cm.hasData, cm.usage, cm.mappings, cm.file`image, cm.file`trace
    ensures cm.Storing() && cm.View() == old(cm.View()) && cm.Store() == old(cm.Store())
    ensures ok && old(cm.Bounded()) ==> cm.Bounded()
    ensures ok ==> Describes(next, cm.Store(), from, if next == Mixed then last else end)
    ensures cm.file.steady ==> ok
  {
    var mapping;
    next := mode;
    ok, mapping := cm.LookUp(curr / 8);
    if ok {
      next := NextMode(mode, mapping != 0);
      ExtendMode(mode, cm.Store(), from, curr, end);
      if next == Mixed { MixedStays(cm.Store(), from, end, last); }
    }
  }

  /** One segment of a read that ends at `last`: `len` sectors from sector `at` on. */
  method SegmentMode(cm: Manager, mode: Mode, ghost from: nat, at: nat, len: nat, ghost last: nat)
    returns (ok: bool, next: Mode)
    requires cm.Storing() && from <= at && at + len <= last <= cm.Capacity() * 8
    requires mode != Mixed && Describes(mode, cm.Store(), from, at)
    modifies cm`resident, cm`peak, cm.hasData, cm.usage, cm.mappings, cm.file`image, cm.file`trace
    ensures cm.Storing() && cm.View() == old(cm.View()) && cm.Store() == old(cm.Store())
    ensures ok && old(cm.Bounded()) ==> cm.Bounded()
    ensures ok ==> Describes(next, cm.Store(), from, if next == Mixed then last else at + len)
    ensures cm.file.steady ==> ok
  {
    var passed := 0;
    ok, next := true, mode;
    while passed < len
      invariant cm.Storing() && cm.View() == old(cm.View()) && cm.Store() == old(cm.Store())
      invariant old(cm.Bounded()) ==> cm.Bounded()
      invariant ok && passed <= len
      invariant next != Mixed && Describes(next, cm.Store(), from, at + passed)
    {
      var curr := at + passed;
      var chunk := Min(8 - curr % 8, len - passed);
      ok, next := Classify(cm, next, from, curr, curr + chunk, last);
      if !ok || next == Mixed { return; }
      passed := passed + chunk;
    }
  }

  /** Looks at the blocks of a read to see where its data is. */
  method GetMode(cm: Manager, sector: nat, segs: seq<nat>) returns (ok: bool, mode: Mode)
    requires cm.Storing() && sector + Sum(segs) <= cm.Capacity() * 8
    modifies cm`resident, cm`peak, cm.hasData, cm.usage, cm.mappings, cm.file`image, cm.file`trace
    ensures cm.Storing() && cm.View() == old(cm.View()) && cm.Store() == old(cm.Store())
    ensures ok && old(cm.Bounded()) ==> cm.Bounded()
    ensures ok ==> Describes(mode, cm.Store(), sector, sector + Sum(segs))
    ensures cm.file.steady ==> ok
  {
    ghost var store := cm.Store();
    ok, mode := true, Unknown;
    var at := sector;
    for s := 0 to |segs|
      invariant cm.Storing() && cm.View() == old(cm.View()) && cm.Store() == store
      invariant old(cm.Bounded()) ==> cm.Bounded()
      invariant ok && at == sector + Sum(segs[..s])
      invariant mode != Mixed && Describes(mode, store, sector, at)
    {
      SumPrefix(segs, s);
      ok, mode := SegmentMode(cm, mode, sector, at, segs[s], sector + Sum(segs));
      if !ok || mode == Mixed { return; }
      at := at + segs[s];
    }
    assert segs[..|segs|] == segs;
  }

  // --------------------------------------------------------------- mixed reads

  /** Word j of the buffer is what a snapshot read from word `start` returns. */
  predicate Right(buf: seq<Word>, base: seq<Word>, store: map<nat, Page>, start: nat, j: nat)
    requires PagesFull(store)
  {
    j < |buf| && start + j < |base| && buf[j] == SnapshotWord(base, store, start + j)
  }

  /** Up to sector `done` the buffer is right; behind, it holds live data if the
      base device was read. */
  predicate Progress(buf: seq<Word>, base: seq<Word>, store: map<nat, Page>, sector: nat, done: nat, live: bool)
    requires PagesFull(store)
  {
    && (forall j :: 0 <= j < done * 64 ==> Right(buf, base, store, sector * 64, j))
    && (live ==> forall j :: done * 64 <= j < |buf| && sector * 64 + j < |base| ==> buf[j] == base[sector * 64 + j])
  }

  lemma ChunkDone(was: seq<Word>, buf: seq<Word>, base: seq<Word>, store: map<nat, Page>, sector: nat,
                  done: nat, n: nat, live: bool)
    requires PagesFull(store) && |was| == |buf| && (done + n) * 64 <= |buf| && sector * 64 + |buf| <= |base|
    requires (sector + done) % 8 + n <= 8
    requires Progress(was, base, store, sector, done, live)
    requires forall j :: 0 <= j < |buf| && !(done * 64 <= j < (done + n) * 64) ==> buf[j] == was[j]
    requires forall j :: done * 64 <= j < (done + n) * 64 ==>
               buf[j] == if (sector + done) / 8 in store
                         then store[(sector + done) / 8][(sector + done) % 8 * 64 + j - done * 64] else was[j]
    requires live || (sector + done) / 8 in store
    ensures Progress(buf, base, store, sector, done + n, live)
  {
    forall j | 0 <= j < (done + n) * 64
      ensures Right(buf, base, store, sector * 64, j)
    {
      if j < done * 64 {
        assert Right(was, base, store, sector * 64, j);
      } else {
        var w := sector * 64 + j;
        assert w / 512 == (sector + done) / 8;
        assert w % 512 == (sector + done) % 8 * 64 + j - done * 64;
      }
    }
  }

  /** Sectors [off, off + n) of a block go to sector `pos` of the buffer: where
      the block is stored, its page overwrites the live data. */
  method OverlayChunk(cm: Manager, block: nat, off: nat, n: nat, buf: array<Word>, pos: nat) returns (ok: bool)
    requires cm.Storing() && block < cm.Capacity() && n > 0 && off + n <= 8 && (pos + n) * 64 <= buf.Length
    requires buf != cm.usage
    modifies buf, cm`resident, cm`peak, cm.hasData, cm.usage, cm.mappings, cm.file`image, cm.file`trace
    ensures cm.Storing() && cm.View() == old(cm.View()) && cm.Store() == old(cm.Store())
    ensures ok && old(cm.Bounded()) ==> cm.Bounded()
    ensures forall j :: 0 <= j < buf.Length && !(pos * 64 <= j < (pos + n) * 64) ==> buf[j] == old(buf[j])
    ensures ok ==> forall j :: pos * 64 <= j < (pos + n) * 64 ==>
              buf[j] == if block in cm.Store() then cm.Store()[block][off * 64 + j - pos * 64] else old(buf[j])
    ensures cm.file.steady ==> ok
  {
    var found, words;
    ok, found, words := StoredWords(cm, block, off, n);
    if ok && found { Paste(buf, pos * 64, words); }
  }

  /** These sectors of the block's page, if it has one. */
  method StoredWords(cm: Manager, block: nat, off: nat, n: nat) returns (ok: bool, found: bool, words: seq<Word>)
    requires cm.Storing() && block < cm.Capacity() && n > 0 && off + n <= 8
    modifies cm`resident, cm`peak, cm.hasData, cm.usage, cm.mappings, cm.file`image, cm.file`trace
    ensures cm.Storing() && cm.View() == old(cm.View()) && cm.Store() == old(cm.Store())
    ensures ok && old(cm.Bounded()) ==> cm.Bounded()
    ensures ok ==> (found <==> block in cm.Store())
    ensures ok && found ==>
      |words| == n * 64 && forall j :: 0 <= j < n * 64 ==> words[j] == cm.Store()[block][off * 64 + j]
    ensures cm.file.steady ==> ok
  {
    var mapping;
    words := [];
    ok, mapping := cm.LookUp(block);
    found := mapping != 0;
    if ok && found { ok, words := cm.ReadData(mapping, off * 64, n * 64); }
  }

  method Paste(buf: array<Word>, from: nat, words: seq<Word>)
    requires from + |words| <= buf.Length
    modifies buf
    ensures forall j :: 0 <= j < buf.Length ==>
              buf[j] == if from <= j < from + |words| then words[j - from] else old(buf[j])
  {
    forall j | 0 <= j < |words| {
      buf[from + j] := words[j];
    }
  }

  /** The sectors that come next, up to the end of their block, become right. */
  method OverlayNext(cm: Manager, ghost base: seq<Word>, sector: nat, done: nat, n: nat,
                     buf: array<Word>, ghost live: bool) returns (ok: bool)
    requires cm.Storing() && PagesFull(cm.Store()) && buf != cm.usage
    requires (done + n) * 64 <= buf.Length && sector * 64 + buf.Length <= |base| <= cm.Capacity() * 512
    requires n > 0 && (sector + done) % 8 + n <= 8
    requires Progress(buf[..], base, cm.Store(), sector, done, live)
    requires live || (sector + done) / 8 in cm.Store()
    modifies buf, cm`resident, cm`peak, cm.hasData, cm.usage, cm.mappings, cm.file`image, cm.file`trace
    ensures cm.Storing() && cm.View() == old(cm.View()) && cm.Store() == old(cm.Store())
    ensures ok && old(cm.Bounded()) ==> cm.Bounded()
    ensures ok ==> Progress(buf[..], base, cm.Store(), sector, done + n, live)
    ensures cm.file.steady ==> ok
  {
    ghost var was, store := buf[..], cm.Store();
    ok := OverlayChunk(cm, (sector + done) / 8, (sector + done) % 8, n, buf, done);
    if ok { ChunkDone(was, buf[..], base, store, sector, done, n, live); }
  }

  /** A read without live data finds every block it touches in the store. */
  ghost predicate Enough(store: map<nat, Page>, sector: nat, sectors: nat, live: bool) {
    live || AllStored(store, sector, sector + sectors)
  }

  lemma BlockEnough(store: map<nat, Page>, sector: nat, sectors: nat, live: bool, done: nat)
    requires Enough(store, sector, sectors, live) && done < sectors
    ensures live || (sector + done) / 8 in store
  {
    assert Within(sector, sector + sectors, (sector + done) / 8);
  }

  lemma CopyEndsInBlock(curSect: nat, left: nat)
    requires left > 0
    ensures var n := Min(left, 8 - curSect % 8); 0 < n <= left && curSect % 8 + n <= 8
  {
  }

  /** One segment: a sector cursor, and copies that stop at block boundaries. */
  method OverlaySegment(cm: Manager, ghost base: seq<Word>, sector: nat, at: nat, len: nat,
                        buf: array<Word>, ghost sectors: nat, ghost live: bool) returns (ok: bool)
    requires cm.Storing() && PagesFull(cm.Store()) && buf != cm.usage
    requires at + len <= sectors && buf.Length == sectors * 64
    requires sector * 64 + buf.Length <= |base| <= cm.Capacity() * 512
    requires Progress(buf[..], base, cm.Store(), sector, at, live) && Enough(cm.Store(), sector, sectors, live)
    modifies buf, cm`resident, cm`peak, cm.hasData, cm.usage, cm.mappings, cm.file`image, cm.file`trace
    ensures cm.Storing() && cm.View() == old(cm.View()) && cm.Store() == old(cm.Store())
    ensures ok && old(cm.Bounded()) ==> cm.Bounded()
    ensures ok ==> Progress(buf[..], base, cm.Store(), sector, at + len, live)
    ensures cm.file.steady ==> ok
  {
    ghost var store := cm.Store();
    var off := 0;
    ok := true;
    while off < len
      invariant cm.Storing() && cm.View() == old(cm.View()) && cm.Store() == store
      invariant old(cm.Bounded()) ==> cm.Bounded()
      invariant ok && off <= len
      invariant Progress(buf[..], base, store, sector, at + off, live)
    {
      ok, off := OverlayBlock(cm, base, sector, at, off, len, buf, sectors, live);
      if !ok { return; }
    }
  }

  /** What is left of the segment, up to the end of the cursor's block. */
  method OverlayBlock(cm: Manager, ghost base: seq<Word>, sector: nat, at: nat, off: nat, len: nat,
                      buf: array<Word>, ghost sectors: nat, ghost live: bool) returns (ok: bool, next: nat)
    requires cm.Storing() && PagesFull(cm.Store()) && buf != cm.usage
    requires off < len && at + len <= sectors && buf.Length == sectors * 64
    requires sector * 64 + buf.Length <= |base| <= cm.Capacity() * 512
    requires Progress(buf[..], base, cm.Store(), sector, at + off, live) && Enough(cm.Store(), sector, sectors, live)
    modifies buf, cm`resident, cm`peak, cm.hasData, cm.usage, cm.mappings, cm.file`image, cm.file`trace
    ensures cm.Storing() && cm.View() == old(cm.View()) && cm.Store() == old(cm.Store())
    ensures ok && old(cm.Bounded()) ==> cm.Bounded()
    ensures off < next <= len
    ensures ok ==> Progress(buf[..], base, cm.Store(), sector, at + next, live)
    ensures cm.file.steady ==> ok
  {
    var curSect := sector + at + off;
    var toCopy := Min(len - off, 8 - curSect % 8);
    CopyEndsInBlock(curSect, len - off);
    BlockEnough(cm.Store(), sector, sectors, live, at + off);
    next := off + toCopy;
    ok := OverlayNext(cm, base, sector, at + off, toCopy, buf, live);
  }

  /** All segments of a read, the cursor running on from one to the next. */
  method OverlayAll(cm: Manager, ghost base: seq<Word>, sector: nat, segs: seq<nat>, buf: array<Word>,
                    ghost live: bool) returns (ok: bool)
    requires cm.Storing() && PagesFull(cm.Store()) && buf != cm.usage
    requires buf.Length == Sum(segs) * 64 && sector * 64 + buf.Length <= |base| <= cm.Capacity() * 512
    requires Progress(buf[..], base, cm.Store(), sector, 0, live) && Enough(cm.Store(), sector, Sum(segs), live)
    modifies buf, cm`resident, cm`peak, cm.hasData, cm.usage, cm.mappings, cm.file`image, cm.file`trace
    ensures cm.Storing() && cm.View() == old(cm.View()) && cm.Store() == old(cm.Store())
    ensures ok && old(cm.Bounded()) ==> cm.Bounded()
    ensures ok ==> Progress(buf[..], base, cm.Store(), sector, Sum(segs), live)
    ensures cm.file.steady ==> ok
  {
    ok := true;
    var at := 0;
    for s := 0 to |segs|
      invariant cm.Storing() && cm.View() == old(cm.View()) && cm.Store() == old(cm.Store())
      invariant old(cm.Bounded()) ==> cm.Bounded()
      invariant ok && at == Sum(segs[..s]) && Progress(buf[..], base, cm.Store(), sector, at, live)
    {
      SumPrefix(segs, s);
      ok := OverlaySegment(cm, base, sector, at, segs[s], buf, Sum(segs), live);
      if !ok { return; }
      at := at + segs[s];
    }
    assert segs[..|segs|] == segs;
  }

  lemma AllRight(buf: seq<Word>, base: seq<Word>, store: map<nat, Page>, sector: nat, sectors: nat, live: bool)
    requires PagesFull(store) && |buf| == sectors * 64 && sector * 64 + |buf| <= |base|
    requires Progress(buf, base, store, sector, sectors, live)
    ensures buf == SnapshotRead(base, store, sector, sectors)
  {
    var data := SnapshotRead(base, store, sector, sectors);
    forall j | 0 <= j < |buf|
      ensures buf[j] == data[j]
    {
      assert Right(buf, base, store, sector * 64, j);
    }
  }

  /** With nothing stored, the live data is the snapshot. */
  lemma LiveIsRight(buf: seq<Word>, base: seq<Word>, store: map<nat, Page>, sector: nat, sectors: nat)
    requires PagesFull(store) && |buf| == sectors * 64 && sector * 64 + |buf| <= |base|
    requires NoneStored(store, sector, sector + sectors)
    requires forall j :: 0 <= j < |buf| ==> buf[j] == base[sector * 64 + j]
    ensures buf == SnapshotRead(base, store, sector, sectors)
  {
    forall j | 0 <= j < |buf|
      ensures buf[j] == SnapshotWord(base, store, sector * 64 + j)
    {
      assert Within(sector, sector + sectors, (sector * 64 + j) / 512);
    }
  }

  method ReadBase(base: seq<Word>, sector: nat, buf: array<Word>, steady: bool) returns (ok: bool)
    requires sector * 64 + buf.Length <= |base|
    modifies buf
    ensures ok ==> forall j :: 0 <= j < buf.Length ==> buf[j] == base[sector * 64 + j]
    ensures steady ==> ok
  {
    ok := *;
    ok := ok || steady;
    if ok {
      forall j | 0 <= j < buf.Length {
        buf[j] := base[sector * 64 + j];
      }
    }
  }

  /** The base device, if the read needs it. */
  method FirstHalf(base: seq<Word>, sector: nat, buf: array<Word>, mode: Mode, steady: bool) returns (ok: bool)
    requires sector * 64 + buf.Length <= |base|
    modifies buf
    ensures ok && mode != CowFile ==> forall j :: 0 <= j < buf.Length ==> buf[j] == base[sector * 64 + j]
    ensures steady ==> ok
  {
    ok := true;
    if mode != CowFile { ok := ReadBase(base, sector, buf, steady); }
  }

  lemma ReadyToOverlay(buf: seq<Word>, base: seq<Word>, store: map<nat, Page>, sector: nat, sectors: nat, mode: Mode)
    requires PagesFull(store) && mode != BaseDevice && Describes(mode, store, sector, sector + sectors)
    requires mode != CowFile ==>
               |buf| + sector * 64 <= |base| && forall j :: 0 <= j < |buf| ==> buf[j] == base[sector * 64 + j]
    ensures Progress(buf, base, store, sector, 0, mode != CowFile) && Enough(store, sector, sectors, mode != CowFile)
  {
  }

  /** The store, if the read needs it. */
  method SecondHalf(cm: Manager, ghost base: seq<Word>, sector: nat, segs: seq<nat>, buf: array<Word>, mode: Mode)
    returns (ok: bool)
    requires cm.Storing() && PagesFull(cm.Store()) && buf != cm.usage
    requires buf.Length == Sum(segs) * 64 && sector * 64 + buf.Length <= |base| <= cm.Capacity() * 512
    requires Describes(mode, cm.Store(), sector, sector + Sum(segs))
    requires mode != CowFile ==> forall j :: 0 <= j < buf.Length ==> buf[j] == base[sector * 64 + j]
    modifies buf, cm`resident, cm`peak, cm.hasData, cm.usage, cm.mappings, cm.file`image, cm.file`trace
    ensures cm.Storing() && cm.View() == old(cm.View()) && cm.Store() == old(cm.Store())
    ensures ok && old(cm.Bounded()) ==> cm.Bounded()
    ensures ok ==> buf[..] == SnapshotRead(base, cm.Store(), sector, Sum(segs))
    ensures cm.file.steady ==> ok
  {
    ok := true;
    if mode == BaseDevice {
      LiveIsRight(buf[..], base, cm.Store(), sector, Sum(segs));
      return;
    }
    ReadyToOverlay(buf[..], base, cm.Store(), sector, Sum(segs), mode);
    ok := OverlayAll(cm, base, sector, segs, buf, mode != CowFile);
    if ok { AllRight(buf[..], base, cm.Store(), sector, Sum(segs), mode != CowFile); }
  }

  /** A snapshot read. Whichever fast path is taken, and whatever the lookups
      evict, a read that succeeds returns stored pages where there are any and
      live data elsewhere, exactly as if both had always been read. */
  method HandleRead(cm: Manager, base: seq<Word>, sector: nat, segs: seq<nat>, buf: array<Word>) returns (ok: bool)
    requires cm.Storing() && buf != cm.usage
    requires buf.Length == Sum(segs) * 64 && sector * 64 + buf.Length <= |base| <= cm.Capacity() * 512
    modifies buf, cm`resident, cm`peak, cm.hasData, cm.usage, cm.mappings, cm.file`image, cm.file`trace
    ensures cm.Storing() && cm.View() == old(cm.View()) && cm.Store() == old(cm.Store())
    ensures ok && old(cm.Bounded()) ==> cm.Bounded()
    ensures PagesFull(cm.Store())
    ensures ok ==> buf[..] == SnapshotRead(base, cm.Store(), sector, Sum(segs))
    ensures cm.file.steady ==> ok
  {
    var mode;
    ok, mode := GetMode(cm, sector, segs);
    if !ok { return; }
    ok := ReadAs(cm, base, sector, segs, buf, mode);
  }

  method ReadAs(cm: Manager, base: seq<Word>, sector: nat, segs: seq<nat>, buf: array<Word>, mode: Mode)
    returns (ok: bool)
    requires cm.Storing() && PagesFull(cm.Store()) && buf != cm.usage
    requires buf.Length == Sum(segs) * 64 && sector * 64 + buf.Length <= |base| <= cm.Capacity() * 512
    requires Describes(mode, cm.Store(), sector, sector + Sum(segs))
    modifies buf, cm`resident, cm`peak, cm.hasData, cm.usage, cm.mappings, cm.file`image, cm.file`trace
    ensures cm.Storing() && cm.View() == old(cm.View()) && cm.Store() == old(cm.Store())
    ensures ok && old(cm.Bounded()) ==> cm.Bounded()
    ensures ok ==> buf[..] == SnapshotRead(base, cm.Store(), sector, Sum(segs))
    ensures cm.file.steady ==> ok
  {
    ok := FirstHalf(base, sector, buf, mode, cm.file.steady);
    if ok { ok := SecondHalf(cm, base, sector, segs, buf, mode); }
  }

  // ----------------------------------------------------------------- the store

  lemma StorePrefix(store: map<nat, Page>, first: nat, pages: seq<Page>, i: nat)
    requires i < |pages|
    ensures var before := StorePages(store, first, pages[..i]);
            StorePages(store, first, pages[..i + 1])
            == if first + i in before then before else before[first + i := pages[i]]
  {
    var before, after := StorePages(store, first, pages[..i]), StorePages(store, first, pages[..i + 1]);
    assert first + i in before <==> first + i in store;
    forall b | b in after
      ensures after[b] == (if first + i in before then before else before[first + i := pages[i]])[b]
    {
    }
  }

  /** A captured clone: each of its pages is offered to its own block once. */
  method HandleWrite(cm: Manager, clone: Bio) returns (ok: bool)
    requires cm.Storing() && WellFormedClone(clone) && clone.sector + clone.sectors <= cm.Capacity() * 8
    modifies cm`resident, cm`peak, cm`changed, cm`currPos, cm.hasData, cm.usage, cm.mappings,
             cm.file`image, cm.file`trace
    ensures cm.Valid() && (old(cm.CountOk()) ==> cm.CountOk())
    ensures ok && old(cm.Bounded()) ==> cm.Bounded()
    ensures ok ==> cm.Storing() && cm.Store() == StoreClone(old(cm.Store()), clone)
    ensures Survives(old(cm.Store()), cm.Store())
    ensures cm.file.steady && (old(cm.currPos) + |clone.pages|) * 4096 <= cm.fileSize ==> ok
  {
    ghost var store := cm.Store();
    var first := FirstBlock(clone.sector);
    ok := true;
    assert StorePages(store, first, clone.pages[..0]) == store;
    for i := 0 to |clone.pages|
      invariant ok && cm.Storing() && (old(cm.CountOk()) ==> cm.CountOk())
      invariant old(cm.Bounded()) ==> cm.Bounded()
      invariant cm.Store() == StorePages(store, first, clone.pages[..i])
      invariant Survives(store, cm.Store()) && cm.currPos <= old(cm.currPos) + i
    {
      StorePrefix(store, first, clone.pages, i);
      ok := cm.WriteCurrent(first + i, clone.pages[i]);
      if !ok { return; }
    }
    assert clone.pages[..|clone.pages|] == clone.pages;
  }
}
