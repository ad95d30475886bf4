/** The old index, from the manager that keeps it to the file that the offline tool
    reads: at every event of a backup cycle its nonzero entries are the blocks the
    cycle has marked. */
module IndexFile {
  import opened Blocks
  import opened CowImage
  import opened CowManager
  import CowStore
  import Cycles = BackupCycle
  import DelayRead
  import IncMarking
  import IncTracing
  import Isolation
  import Protocol
  import SnapHandle
  import UpdateImg

  /** The nonzero entries are these blocks. */
  ghost predicate Marks(view: seq<Section>, sectSize: nat, capacity: nat, marked: set<nat>) {
    forall p: nat :: p < capacity ==> InView(view, sectSize, p) && (At(view, sectSize, p) != 0 <==> p in marked)
  }

  ghost predicate Linked(cm: Manager, c: Cycles.Cycle)
    reads cm, cm.hasData, cm.mappings, cm.file
  {
    && cm.Valid() && c.first.blocks <= cm.Capacity()
    && Marks(cm.View(), cm.sectSize, cm.Capacity(), Cycles.Index(c))
  }

  /** While the first device still works, the manager's store is the device's. */
  ghost predicate Stores(cm: Manager, c: Cycles.Cycle)
    reads cm, cm.hasData, cm.mappings, cm.file
  {
    && cm.Storing() && c.first.blocks <= cm.Capacity()
    && cm.Store() == c.first.store && c.marked == {}
  }

  lemma StoresLinks(cm: Manager, c: Cycles.Cycle)
    requires Stores(cm, c)
    ensures Linked(cm, c)
  {
    IncMarking.AllInside(cm);
    forall p: nat | p < cm.Capacity()
      ensures At(cm.View(), cm.sectSize, p) != 0 <==> p in Cycles.Index(c)
    {
      assert CowStore.Mapped(cm.View(), cm.sectSize, p) <==> p in cm.Store();
    }
  }

  lemma FirstLeavesStore(s: Protocol.State, step: Protocol.Step)
    requires step.CowThread? ==> s.cowQ == [] || s.fail || !s.cowQ[DelayRead.Picked(s.cowQ)].write
    ensures Protocol.Next(s, step).store == s.store
  {
  }

  /** Only a clone that is handled and a sector set touch the index. */
  lemma IndexStays(c: Cycles.Cycle, e: Cycles.Event)
    requires Cycles.Possible(c, e) && !e.SsetThread?
    requires e.First? && e.step.CowThread? ==>
               c.first.cowQ == [] || c.first.fail || !c.first.cowQ[DelayRead.Picked(c.first.cowQ)].write
    ensures Cycles.Index(Cycles.After(c, e)) == Cycles.Index(c)
  {
    var c' := Cycles.After(c, e);
    match e
    case First(step) => FirstLeavesStore(c.first, step);
    case _ => OthersLeaveIndex(c, e);
  }

  lemma StrayLeavesStore(c: Cycles.Cycle, word: nat, value: Word)
    ensures Cycles.Change(c, word, value).marked == c.marked
    ensures Cycles.Change(c, word, value).first.store == c.first.store
  {
  }

  lemma LandLeavesStore(c: Cycles.Cycle, id: nat, word: nat)
    requires Cycles.Possible(c, Cycles.IncLand(id, word))
    ensures Cycles.After(c, Cycles.IncLand(id, word)).marked == c.marked
    ensures Cycles.After(c, Cycles.IncLand(id, word)).first.store == c.first.store
  {
    var value, stray := Cycles.LandIsChange(c, id, word);
    StrayLeavesStore(c, word, value);
  }

  lemma OthersLeaveIndex(c: Cycles.Cycle, e: Cycles.Event)
    requires Cycles.Possible(c, e) && !e.SsetThread? && !e.First?
    ensures Cycles.After(c, e).marked == c.marked && Cycles.After(c, e).first.store == c.first.store
  {
    match e
    case IncLand(id, word) => LandLeavesStore(c, id, word);
    case StrayWrite(word, value) => StrayLeavesStore(c, word, value);
    case _ =>
  }

  lemma CloneGoesIn(c: Cycles.Cycle, clone: Bio)
    requires c.first.cowQ != [] && !c.first.fail && clone == c.first.cowQ[DelayRead.Picked(c.first.cowQ)] && clone.write
    requires Cycles.Possible(c, Cycles.First(Protocol.CowThread(Protocol.Handled)))
    ensures var c' := Cycles.After(c, Cycles.First(Protocol.CowThread(Protocol.Handled)));
            && c'.first.store == StoreClone(c.first.store, clone)
            && c'.marked == c.marked && c'.first.blocks == c.first.blocks
  {
  }

  /** A captured clone goes into the store. */
  method StoreNext(cm: Manager, ghost c: Cycles.Cycle, clone: Bio) returns (ok: bool)
    requires Stores(cm, c) && Cycles.Sane(c) && c.first.cowQ != [] && !c.first.fail
    requires Cycles.Possible(c, Cycles.First(Protocol.CowThread(Protocol.Handled)))
    requires clone == c.first.cowQ[DelayRead.Picked(c.first.cowQ)] && clone.write
    modifies cm`resident, cm`peak, cm`changed, cm`currPos, cm.hasData, cm.usage, cm.mappings,
             cm.file`image, cm.file`trace
    ensures ok ==> Stores(cm, Cycles.After(c, Cycles.First(Protocol.CowThread(Protocol.Handled))))
  {
    CloneFits(c.first, cm.Capacity());
    CloneGoesIn(c, clone);
    ghost var c' := Cycles.After(c, Cycles.First(Protocol.CowThread(Protocol.Handled)));
    ok := StoreClonePages(cm, c.first.store, clone);
    if ok { assert c'.first.blocks <= cm.Capacity() && cm.Store() == c'.first.store; }
  }

  method StoreClonePages(cm: Manager, ghost store: map<nat, Page>, clone: Bio) returns (ok: bool)
    requires cm.Storing() && cm.Store() == store
    requires WellFormedClone(clone) && clone.sector + clone.sectors <= cm.Capacity() * 8
    modifies cm`resident, cm`peak, cm`changed, cm`currPos, cm.hasData, cm.usage, cm.mappings,
             cm.file`image, cm.file`trace
    ensures ok ==> cm.Storing() && cm.Store() == StoreClone(store, clone)
  {
    ok := SnapHandle.HandleWrite(cm, clone);
  }

  lemma CloneFits(s: Protocol.State, capacity: nat)
    requires Isolation.Shape(s) && s.cowQ != [] && s.blocks <= capacity
    requires s.cowQ[DelayRead.Picked(s.cowQ)].write
    ensures var clone := s.cowQ[DelayRead.Picked(s.cowQ)];
            WellFormedClone(clone) && clone.sector + clone.sectors <= capacity * 8
  {
    var k := DelayRead.Picked(s.cowQ);
    assert s.cowQ[k].sector + s.cowQ[k].sectors <= s.blocks * 8;
  }

  /** A sector set is marked, as far as it goes. */
  method MarkNext(cm: Manager, ghost c: Cycles.Cycle, sset: IncTracing.SectorSet) returns (ok: bool, ghost done: nat)
    requires Linked(cm, c) && Cycles.Possible(c, Cycles.SsetThread(true, 0)) && !c.incFail
    requires sset == c.pending[0] && EndBlock(sset.sect, sset.len) <= cm.Capacity()
    modifies cm`resident, cm`peak, cm`changed, cm.hasData, cm.usage, cm.mappings, cm.file`image, cm.file`trace
    ensures Linked(cm, Cycles.After(c, Cycles.SsetThread(ok, done)))
    ensures cm.file.steady ==> ok
  {
    ok, done := IncMarking.IncHandleSset(cm, sset);
    ghost var c' := Cycles.Marking(c, ok, done);
    forall p: nat | p < cm.Capacity()
      ensures At(cm.View(), cm.sectSize, p) != 0 <==> p in Cycles.Index(c')
    {
      assert Touches(sset.sect, sset.len, p) <==> p in Cycles.BlocksOf(sset);
    }
  }

  /** The data behind the index is given up. */
  method CutData(cm: Manager, ghost c: Cycles.Cycle) returns (ok: bool)
    requires Linked(cm, c)
    modifies cm`indexOnly, cm`fileSize, cm.file`image, cm.file`trace
    ensures Linked(cm, c)
    ensures cm.file.steady ==> ok
  {
    ok := cm.TruncateToIndex();
  }

  // ------------------------------------------------------------- the index file

  /** The words of the index, one after the other behind the header. */
  function IndexWords(img: Image, n: nat): (index: seq<Word>)
    ensures |index| == n
  {
    ReadWords(img, 512, n)
  }

  lemma FlatEntry(img: Image, sectSize: nat, total: nat, n: nat, p: nat)
    requires sectSize > 0 && p < n && InView(IndexOf(img, sectSize, total), sectSize, p)
    ensures IndexWords(img, n)[p] == At(IndexOf(img, sectSize, total), sectSize, p)
  {
    var i, k := p / sectSize, p % sectSize;
    SectionOffset(sectSize, i);
    assert p == sectSize * i + k;
    assert IndexOf(img, sectSize, total)[i] == SectionOf(img, sectSize, i);
    assert SectionOf(img, sectSize, i)[k] == Peek(img, SectionAt(sectSize, i) + k);
  }

  /** A file that holds a view has its marks in the words the tool reads. */
  lemma FileMarks(img: Image, h: Header, view: seq<Section>, sectSize: nat, capacity: nat, blocks: nat,
                  marked: set<nat>)
    requires sectSize > 0 && Holds(img, h, view, sectSize)
    requires Marks(view, sectSize, capacity, marked) && blocks <= capacity
    ensures Cycles.WordsMark(IndexWords(img, blocks), blocks, marked)
  {
    forall b | 0 <= b < blocks
      ensures IndexWords(img, blocks)[b] != 0 <==> b in marked
    {
      FlatEntry(img, sectSize, |view|, blocks, b);
    }
  }

  /** Closing the old index leaves its marks in the file. */
  method CloseIndex(cm: Manager, ghost c: Cycles.Cycle) returns (ok: bool)
    requires Linked(cm, c)
    modifies cm, cm.usage, cm.mappings, cm.file
    ensures ok ==> Cycles.WordsMark(IndexWords(cm.file.image, c.first.blocks), c.first.blocks, Cycles.Index(c))
    ensures cm.file.steady ==> ok
  {
    ghost var view := cm.View();
    ok := cm.SyncAndClose();
    if ok {
      FileMarks(cm.file.image, cm.HeaderWith(true), view, cm.sectSize, cm.Capacity(), c.first.blocks, Cycles.Index(c));
    }
  }

  // ------------------------------------------------------------------ the backup

  /** The image as it is before the update is the first snapshot, block by block,
      and the pages are those the next snapshot device answered. */
  ghost predicate Inputs(c: Cycles.Cycle, img: seq<Word>, pages: seq<Page>) {
    && |img| == |c.first.snap| == c.first.blocks * 512 && |pages| == c.first.blocks
    && (forall i :: 0 <= i < |pages| ==> |pages[i]| == 512)
    && (forall i :: 0 <= i < |pages| && i in Cycles.Index(c) ==> Cycles.WasRead(c.second.s, i, pages[i]))
  }

  /** What the system did to the marked blocks' transfers. */
  ghost predicate NoneCutShort(marked: set<nat>, io: UpdateImg.Transfers) {
    forall b :: b in marked ==> !UpdateImg.CutShort(io, b)
  }

  /** The system lets the tool read its index. */
  ghost predicate IndexReadWhole(io: UpdateImg.Transfers) {
    forall i :: io.chunk(i).Whole?
  }

  /** Blocks of the image that only traced writes changed, and that held the first
      snapshot, hold the next one. */
  ghost predicate BackedUp(c: Cycles.Cycle, was: seq<Word>, now: seq<Word>)
    requires |was| == |now| == |c.first.snap| == c.first.blocks * 512
  {
    && |c.second.s.snap| == |now|
    && forall b: nat :: b < c.first.blocks && b !in c.stray && b !in c.second.s.untraced
                        && BlockAt(was, b) == BlockAt(c.first.snap, b) ==>
         BlockAt(now, b) == BlockAt(c.second.s.snap, b)
  }

  /** A run of the tool over a snapshot of whole blocks. */
  method RunTool(index: seq<Word>, blocks: nat, pages: seq<Page>, img: array<Word>, io: UpdateImg.Transfers,
                 errno: nat) returns (ok: bool, ghost count: nat, tally: UpdateImg.Tally)
    requires |pages| == blocks && img.Length == blocks * 512 && forall i :: 0 <= i < |pages| ==> |pages[i]| == 512
    requires |index| == blocks
    modifies img
    ensures ok ==> UpdateImg.MergedBelow(old(img[..]), img[..], index, blocks, io, blocks * 4096, Cycles.Reads(pages),
                                         errno, count, tally)
    ensures IndexReadWhole(io) ==> ok
  {
    var status, marked;
    var snap := Cycles.Reads(pages);
    assert UpdateImg.TotalBlocks(blocks * 4096) == blocks;
    ok, status, marked, tally := UpdateImg.Update(snap, blocks * 4096, index, img, io, errno);
    count := marked;
  }

  /** End to end: the old index is closed and the tool runs on its file, with what
      the next snapshot device answered to reads taken apart into lookup, base read
      and answer. If no word was overwritten in a read's window, the tool ends
      without reporting an error, and the system cut no transfer of a marked block
      short, then every block that only traced writes changed is the next
      snapshot's. */
  method Backup(cm: Manager, ghost story: Cycles.Story, blocks: nat, pages: seq<Page>, img: array<Word>,
                io: UpdateImg.Transfers, errno: nat) returns (ok: bool, tally: UpdateImg.Tally)
    requires story.Valid() && story.InOrder() && story.Undisturbed()
    requires Linked(cm, story.Final()) && blocks == story.Final().first.blocks
    requires Cycles.Settled(story.Final()) && !story.Final().incFail && Inputs(story.Final(), img[..], pages)
    requires img != cm.usage
    modifies cm, cm.usage, cm.mappings, cm.file, img
    ensures ok && tally.errors == 0 && NoneCutShort(Cycles.Index(story.Final()), io) ==>
              BackedUp(story.Final(), old(img[..]), img[..])
    ensures cm.file.steady && IndexReadWhole(io) ==> ok
  {
    tally := UpdateImg.Tally(0, errno);
    ghost var c, was := story.Final(), img[..];
    var index;
    ghost var count;
    ok, index := SavedIndex(cm, c, blocks);
    if !ok { return; }
    ok, count, tally := RunTool(index, blocks, pages, img, io, errno);
    if ok && tally.errors == 0 && NoneCutShort(Cycles.Index(c), io) {
      Updated(story, was, img[..], pages, index, io, errno, count, tally);
    }
  }

  method SavedIndex(cm: Manager, ghost c: Cycles.Cycle, blocks: nat) returns (ok: bool, index: seq<Word>)
    requires Linked(cm, c) && blocks == c.first.blocks
    modifies cm, cm.usage, cm.mappings, cm.file
    ensures ok ==> |index| == blocks && Cycles.WordsMark(index, blocks, Cycles.Index(c))
    ensures cm.file.steady ==> ok
  {
    index := [];
    ok := CloseIndex(cm, c);
    if ok { ok, index := cm.file.Read(512, blocks); }
  }

  lemma Updated(story: Cycles.Story, was: seq<Word>, now: seq<Word>, pages: seq<Page>, index: seq<Word>,
                io: UpdateImg.Transfers, errno: nat, count: nat, tally: UpdateImg.Tally)
    requires story.Valid() && story.InOrder() && story.Undisturbed()
    requires Cycles.Settled(story.Final()) && !story.Final().incFail && Inputs(story.Final(), was, pages)
    requires var c := story.Final();
             && Cycles.WordsMark(index, c.first.blocks, Cycles.Index(c))
             && UpdateImg.MergedBelow(was, now, index, c.first.blocks, io, c.first.blocks * 4096, Cycles.Reads(pages),
                                      errno, count, tally)
             && tally.errors == 0 && NoneCutShort(Cycles.Index(c), io)
    ensures |was| == |now| && BackedUp(story.Final(), was, now)
  {
    var c := story.Final();
    Cycles.StorySane(story);
    forall b: nat | b < c.first.blocks && b !in c.stray && b !in c.second.s.untraced
                    && BlockAt(was, b) == BlockAt(c.first.snap, b)
      ensures BlockAt(now, b) == BlockAt(c.second.s.snap, b)
    {
      Cycles.UpdatedImageIsNextSnapshot(story, was, now, pages, index, io, errno, count, tally, b);
    }
  }
}
