/** A COW manager carried through a backup cycle from its creation on: whatever the
    events, and whichever of them fail, its index stays the cycle's. */
module TrackedCycle {
  import opened Blocks
  import opened CowManager
  import opened IndexFile
  import CowSetup
  import Cycles = BackupCycle
  import DelayRead
  import IncTracing
  import Protocol
  import Tracker
  import UpdateImg

  /** The event handles a captured clone. */
  ghost predicate HandlesClone(c: Cycles.Cycle, e: Cycles.Event) {
    && e.First? && e.step.CowThread? && c.first.cowQ != [] && !c.first.fail
    && c.first.cowQ[DelayRead.Picked(c.first.cowQ)].write
  }

  lemma SameIndex(c: Cycles.Cycle, e: Cycles.Event)
    requires Cycles.Possible(c, e) && !HandlesClone(c, e) && (e.SsetThread? ==> c.incFail)
    ensures var c' := Cycles.After(c, e);
            && c'.first.store == c.first.store && c'.marked == c.marked
  {
    if e.First? {
      FirstLeavesStore(c.first, e.step);
    } else if !e.SsetThread? {
      OthersLeaveIndex(c, e);
    }
  }

  lemma SameDevice(c: Cycles.Cycle, e: Cycles.Event)
    requires Cycles.Possible(c, e)
    ensures Cycles.After(c, e).first.blocks == c.first.blocks
    ensures c.first.fail ==> Cycles.After(c, e).first.fail
  {
    match e
    case First(step) => DeviceStays(c.first, step);
    case IncLand(id, word) =>
      var value, stray := Cycles.LandIsChange(c, id, word);
      DeviceStays(c.first, Protocol.Stray(word, value));
    case StrayWrite(word, value) => DeviceStays(c.first, Protocol.Stray(word, value));
    case _ =>
  }

  lemma DeviceStays(s: Protocol.State, step: Protocol.Step)
    ensures Protocol.Next(s, step).blocks == s.blocks && (s.fail ==> Protocol.Next(s, step).fail)
  {
  }

  /** The sector sets that wait to be marked lie inside the device. */
  predicate SetsInside(c: Cycles.Cycle) {
    forall i :: 0 <= i < |c.pending| ==> EndBlock(c.pending[i].sect, c.pending[i].len) <= c.first.blocks
  }

  lemma NewSetsInside(c: Cycles.Cycle, w: Tracker.Write, segs: seq<IncTracing.Segment>,
                      ssets: seq<IncTracing.SectorSet>)
    requires SetsInside(c) && Cycles.Possible(c, Cycles.IncWrite(w, segs, ssets))
    ensures SetsInside(Cycles.After(c, Cycles.IncWrite(w, segs, ssets)))
  {
    forall i | 0 <= i < |ssets|
      ensures EndBlock(ssets[i].sect, ssets[i].len) <= c.first.blocks
    {
      IncTracing.ReportedSetsFit(ssets, false, segs, w.sector, w.sectors, c.first.blocks * 8, c.first.blocks, i);
    }
  }

  lemma SetsStayInside(c: Cycles.Cycle, e: Cycles.Event)
    requires SetsInside(c) && Cycles.Possible(c, e)
    ensures SetsInside(Cycles.After(c, e))
  {
    SameDevice(c, e);
    match e
    case IncWrite(w, segs, ssets) => NewSetsInside(c, w, segs, ssets);
    case IncLand(id, word) =>
      var value, stray := Cycles.LandIsChange(c, id, word);
    case _ =>
  }

  lemma {:induction false} StorySetsInside(story: Cycles.Story)
    requires story.Valid()
    ensures SetsInside(story.Final())
  {
    match story
    case Opening(_) =>
    case Continued(prev, e) =>
      StorySetsInside(prev);
      if Cycles.Possible(prev.Final(), e) { SetsStayInside(prev.Final(), e); }
  }

  /** What the manager keeps of a cycle: the store, unless storing failed, and the
      index once that is all that is needed. */
  ghost predicate Carries(cm: Manager, storing: bool, c: Cycles.Cycle)
    reads cm, cm.hasData, cm.mappings, cm.file
  {
    if storing then c.first.fail || Stores(cm, c) else Linked(cm, c)
  }

  lemma NextFinal(story: Cycles.Story, e: Cycles.Event)
    requires story.Valid() && Cycles.Possible(story.Final(), e)
    ensures Cycles.Continued(story, e).Valid()
    ensures Cycles.Continued(story, e).Final() == Cycles.After(story.Final(), e)
  {
  }

  /** The event of the copy-on-write thread's turn with a clone, and how it ended. */
  function Turn(ok: bool): Cycles.Event {
    Cycles.First(Protocol.CowThread(if ok then Protocol.Handled else Protocol.Failed(0)))
  }

  /** This clone is the one the thread turns to next. */
  ghost predicate ClonePicked(c: Cycles.Cycle, clone: Bio) {
    && Cycles.Possible(c, Turn(true)) && HandlesClone(c, Turn(true))
    && clone == c.first.cowQ[DelayRead.Picked(c.first.cowQ)]
  }

  class Tracked {
    const cm: Manager
    ghost var story: Cycles.Story
    ghost var storing: bool // pages are still being stored

    ghost predicate Valid()
      reads this, cm, cm.hasData, cm.mappings, cm.file
    {
      story.Valid() && Carries(cm, storing, story.Final())
    }

    constructor (cm: Manager, ghost image: seq<Word>)
      requires |image| % 512 == 0 && Carries(cm, true, Cycles.BeginCycle(image))
      ensures this.cm == cm && story == Cycles.Opening(image) && storing && Valid()
    {
      this.cm, story, storing := cm, Cycles.Opening(image), true;
    }

    ghost method Extend(e: Cycles.Event)
      requires story.Valid() && Cycles.Possible(story.Final(), e)
      requires Carries(cm, storing, Cycles.After(story.Final(), e))
      modifies this`story
      ensures Valid() && story == Cycles.Continued(old(story), e)
    {
      NextFinal(story, e);
      story := Cycles.Continued(story, e);
    }

    /** An event that leaves the index alone. */
    ghost method Observe(e: Cycles.Event)
      requires Valid() && !HandlesClone(story.Final(), e) && (e.SsetThread? ==> story.Final().incFail)
      modifies this`story
      ensures Valid() && story == Cycles.Continued(old(story), e)
    {
      if Cycles.Possible(story.Final(), e) {
        SameIndex(story.Final(), e);
        SameDevice(story.Final(), e);
        Extend(e);
      } else {
        story := Cycles.Continued(story, e);
      }
    }

    /** The copy-on-write thread takes a clone off the queue and stores it. */
    method HandleClone(clone: Bio) returns (ok: bool)
      requires Valid() && storing && ClonePicked(story.Final(), clone)
      modifies this`story, cm`resident, cm`peak, cm`changed, cm`currPos, cm.hasData, cm.usage, cm.mappings,
               cm.file`image, cm.file`trace
      ensures Valid() && story == Cycles.Continued(old(story), Turn(ok))
    {
      Cycles.StorySane(story);
      ok := StoreOne(cm, story.Final(), clone);
      Extend(Turn(ok));
    }

    /** The index is all that is needed from here on. */
    ghost method DoneStoring()
      requires Valid() && (storing ==> !story.Final().first.fail)
      modifies this`storing
      ensures Valid() && !storing
    {
      if storing { StoresLinks(cm, story.Final()); }
      storing := false;
    }

    /** The sector-set thread marks a set, or part of it. */
    method HandleSset(sset: IncTracing.SectorSet) returns (ok: bool)
      requires Valid() && (storing ==> !story.Final().first.fail)
      requires Cycles.Possible(story.Final(), Cycles.SsetThread(true, 0)) && !story.Final().incFail
      requires sset == story.Final().pending[0]
      modifies this`story, this`storing, cm`resident, cm`peak, cm`changed, cm.hasData, cm.usage, cm.mappings,
               cm.file`image, cm.file`trace
      ensures Valid() && !storing
      ensures exists done :: story == Cycles.Continued(old(story), Cycles.SsetThread(ok, done))
      ensures cm.file.steady ==> ok
    {
      DoneStoring();
      StorySetsInside(story);
      ghost var done;
      ok, done := MarkNext(cm, story.Final(), sset);
      Extend(Cycles.SsetThread(ok, done));
    }

    /** The file is cut behind the index, once the stored pages are given up. */
    method CutFile() returns (ok: bool)
      requires Valid() && (storing ==> !story.Final().first.fail)
      requires story.Final().phase != Cycles.Snapshot && story.Final().first.cowQ == []
      modifies this`storing, cm`indexOnly, cm`fileSize, cm.file`image, cm.file`trace
      ensures Valid() && !storing && story == old(story)
      ensures cm.file.steady ==> ok
    {
      DoneStoring();
      ok := CutData(cm, story.Final());
    }

    /** The end of the cycle. */
    method Finish(blocks: nat, pages: seq<Page>, img: array<Word>, io: UpdateImg.Transfers, errno: nat)
      returns (ok: bool, tally: UpdateImg.Tally)
      requires Valid() && story.InOrder() && story.Undisturbed() && blocks == story.Final().first.blocks
      requires Cycles.Settled(story.Final()) && !story.Final().incFail && Inputs(story.Final(), img[..], pages)
      requires img != cm.usage
      modifies this`storing, cm, cm.usage, cm.mappings, cm.file, img
      ensures ok && tally.errors == 0 && NoneCutShort(Cycles.Index(story.Final()), io) ==>
                BackedUp(story.Final(), old(img[..]), img[..])
      ensures cm.file.steady && IndexReadWhole(io) ==> ok
    {
      Cycles.StorySane(story);
      DoneStoring();
      ok, tally := Backup(cm, story, blocks, pages, img, io, errno);
    }
  }

  lemma FailedTurn(c: Cycles.Cycle)
    requires HandlesClone(c, Turn(false)) && Cycles.Possible(c, Turn(false))
    ensures Cycles.After(c, Turn(false)).first.fail
  {
  }

  method StoreOne(cm: Manager, ghost c: Cycles.Cycle, clone: Bio) returns (ok: bool)
    requires Carries(cm, true, c) && Cycles.Sane(c) && ClonePicked(c, clone)
    modifies cm`resident, cm`peak, cm`changed, cm`currPos, cm.hasData, cm.usage, cm.mappings,
             cm.file`image, cm.file`trace
    ensures Cycles.Possible(c, Turn(ok)) && Carries(cm, true, Cycles.After(c, Turn(ok)))
  {
    ok := StoreNext(cm, c, clone);
    if !ok { FailedTurn(c); }
  }

  lemma NewCycle(cm: Manager, image: seq<Word>)
    requires cm.Storing() && cm.Store() == map[] && |image| % 512 == 0 && |image| / 512 <= cm.Capacity()
    ensures Carries(cm, true, Cycles.BeginCycle(image))
  {
  }

  /** A new manager stores what the empty cycle stores. */
  method NewManager(ghost image: seq<Word>, blocks: nat, sectSize: nat, ghost order: nat, cacheBytes: nat,
                    fileMax: nat, random: (nat, nat), steady: bool) returns (cm: Manager?)
    requires |image| == blocks * 512 && CowSetup.PageSized(sectSize, order)
    ensures |image| % 512 == 0
    ensures cm != null ==>
      && fresh(cm) && fresh(cm.file) && fresh(cm.hasData) && fresh(cm.usage) && fresh(cm.mappings)
      && Carries(cm, true, Cycles.BeginCycle(image)) && cm.file.steady == steady
    ensures steady ==> cm != null
  {
    cm := CowSetup.Init(blocks, sectSize, order, cacheBytes, fileMax, None, random, 1, steady);
    if cm != null { NewCycle(cm, image); }
  }

  /** Setting a snapshot up. */
  method SetUp(ghost image: seq<Word>, blocks: nat, sectSize: nat, ghost order: nat, cacheBytes: nat, fileMax: nat,
               random: (nat, nat), steady: bool) returns (tracked: Tracked?)
    requires |image| == blocks * 512 && CowSetup.PageSized(sectSize, order)
    ensures tracked != null ==>
      && fresh(tracked) && fresh(tracked.cm) && fresh(tracked.cm.file) && fresh(tracked.cm.hasData)
      && fresh(tracked.cm.usage) && fresh(tracked.cm.mappings) && tracked.Valid() && tracked.storing
      && tracked.story == Cycles.Opening(image) && tracked.cm.file.steady == steady
    ensures steady ==> tracked != null
  {
    var cm := NewManager(image, blocks, sectSize, order, cacheBytes, fileMax, random, steady);
    tracked := null;
    if cm != null { tracked := new Tracked(cm, image); }
  }
}
