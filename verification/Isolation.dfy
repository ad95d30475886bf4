/** Snapshot isolation: what every reachable state of the copy-on-write protocol
    knows about old block contents, and what its snapshot reads return. */
module Isolation {
  import opened Blocks
  import opened Tracker
  import opened Protocol
  import DelayRead

  // ------------------------------------------------------------------ shapes

  predicate QueueInside(blocks: nat, q: seq<Bio>) {
    forall i :: 0 <= i < |q| ==> q[i].sector + q[i].sectors <= blocks * 8
  }

  predicate ClonesFull(t: Tracing) {
    forall c :: c in t.clones ==> PagesFull(t.clones[c].got)
  }

  predicate TraceExtent(blocks: nat, tr: Trace) {
    && ValidWrite(blocks, tr.write)
    && tr.first == FirstBlock(tr.write.sector)
    && tr.end == EndBlock(tr.write.sector, tr.write.sectors)
  }

  predicate Extents(blocks: nat, t: Tracing) {
    && (forall id :: id in t.traces ==> TraceExtent(blocks, t.traces[id]))
    && (forall id :: id in t.held ==> ValidWrite(blocks, t.held[id]))
  }

  predicate Shape(s: State) {
    && |s.snap| == s.blocks * 512 && |s.base| == s.blocks * 512
    && PagesFull(s.store) && PagesFull(s.firsts)
    && DelayRead.WellFormedQueue(s.cowQ) && QueueInside(s.blocks, s.cowQ)
    && ClonesFull(s.t) && Extents(s.blocks, s.t)
  }

  lemma CloneInside(s: State, c: nat)
    requires Shape(s) && OkTraces(s.t) && OkClones(s.t) && c in s.t.clones
    ensures s.t.clones[c].first < s.t.clones[c].end <= s.blocks
  {
    assert OkClone(s.t, c);
    assert OkTrace(s.t, s.t.clones[c].owner, 0);
    assert TraceExtent(s.blocks, s.t.traces[s.t.clones[c].owner]);
  }

  lemma CapturedFits(id: nat, c: Clone)
    requires FullyRead(c) && PagesFull(c.got)
    ensures var bio := Captured(id, c);
            && WellFormedClone(bio)
            && FirstBlock(bio.sector) == c.first
            && |bio.pages| == c.end - c.first
            && bio.sector + bio.sectors == c.end * 8
            && (forall b: nat :: Covers(bio, b) <==> c.first <= b < c.end)
            && (forall b: nat :: c.first <= b < c.end ==> PageOf(bio, b) == c.got[b])
  {
  }

  lemma PutExtents(blocks: nat, t: Tracing, id: nat)
    requires Extents(blocks, t) && ClonesFull(t) && id in t.traces
    ensures Extents(blocks, Put(t, id)) && ClonesFull(Put(t, id))
    ensures Put(t, id).clones == t.clones
  {
    assert TraceExtent(blocks, t.traces[id]);
  }

  lemma DropExtents(blocks: nat, t: Tracing, id: nat)
    requires Extents(blocks, t) && ClonesFull(t) && id in t.traces
    ensures Extents(blocks, DropHolder(t, id)) && ClonesFull(DropHolder(t, id))
  {
    assert TraceExtent(blocks, t.traces[id]);
    PutExtents(blocks, t.(traces := t.traces[id := t.traces[id].(holder := false)]), id);
  }

  lemma BeginExtents(blocks: nat, t: Tracing, w: Write)
    requires Extents(blocks, t) && ClonesFull(t) && ValidWrite(blocks, w)
    ensures Extents(blocks, Begin(t, w)) && ClonesFull(Begin(t, w))
    ensures Extents(blocks, LetThrough(t, w)) && ClonesFull(LetThrough(t, w))
  {
  }

  lemma IssueExtents(blocks: nat, t: Tracing, id: nat, pages: nat)
    requires Extents(blocks, t) && ClonesFull(t) && id in t.traces
    ensures Extents(blocks, Issue(t, id, pages)) && ClonesFull(Issue(t, id, pages))
  {
    assert TraceExtent(blocks, t.traces[id]);
  }

  lemma CaptureExtents(blocks: nat, t: Tracing, c: nat, block: nat, page: Page)
    requires Extents(blocks, t) && ClonesFull(t) && c in t.clones && |page| == 512
    ensures Extents(blocks, Capture(t, c, block, page)) && ClonesFull(Capture(t, c, block, page))
  {
    assert PagesFull(t.clones[c].got);
  }

  lemma SubmitExtents(blocks: nat, t: Tracing)
    requires Extents(blocks, t) && ClonesFull(t) && t.readQ != []
    ensures Extents(blocks, Submit(t)) && ClonesFull(Submit(t))
  {
  }

  lemma TracingShape(s: State, step: Step)
    requires Shape(s)
    ensures Extents(s.blocks, Next(s, step).t) && ClonesFull(Next(s, step).t)
  {
    if !Enabled(s, step) { return; }
    match step
    case BeginTrace(w) => BeginExtents(s.blocks, s.t, w);
    case PassWrite(w) => BeginExtents(s.blocks, s.t, w);
    case IssueClone(id, pages) => IssueExtents(s.blocks, s.t, id, pages);
    case AbortTrace(id) => DropExtents(s.blocks, s.t, id);
    case FinishTrace(id) => DropExtents(s.blocks, s.t, id);
    case SubmitClone => SubmitExtents(s.blocks, s.t);
    case CaptureBlock(c, b) => CaptureExtents(s.blocks, s.t, c, b, BlockAt(s.base, b));
    case CompleteClone(c, ok) => PutExtents(s.blocks, RemoveClone(s.t, c), s.t.clones[c].owner);
    case CowThread(outcome) =>
      HandlingLeavesTracing(s.(cowQ := DelayRead.Rest(s.cowQ)), s.cowQ[DelayRead.Picked(s.cowQ)], outcome);
    case _ =>
  }

  lemma QueueShape(s: State, bio: Bio)
    requires DelayRead.WellFormedQueue(s.cowQ) && QueueInside(s.blocks, s.cowQ) && PagesFull(s.firsts)
    requires bio.write ==> WellFormedClone(bio)
    requires bio.sector + bio.sectors <= s.blocks * 8
    ensures var q := s.cowQ + [bio]; DelayRead.WellFormedQueue(q) && QueueInside(s.blocks, q)
    ensures bio.write ==> PagesFull(Queue(s, bio).firsts)
  {
  }

  lemma RestShape(blocks: nat, q: seq<Bio>)
    requires q != [] && DelayRead.WellFormedQueue(q) && QueueInside(blocks, q)
    ensures DelayRead.WellFormedQueue(DelayRead.Rest(q)) && QueueInside(blocks, DelayRead.Rest(q))
  {
    var rest, k := DelayRead.Rest(q), DelayRead.Picked(q);
    forall i | 0 <= i < |rest|
      ensures exists j :: 0 <= j < |q| && rest[i] == q[j]
    {
      assert rest[i] == q[if k == 0 || i >= k then i + 1 else if i == k - 1 then 0 else i + 1];
    }
  }

  lemma HandleShape(s: State, bio: Bio, outcome: Handling)
    requires Shape(s) && (bio.write ==> WellFormedClone(bio))
    ensures Shape(Handle(s, bio, outcome))
  {
  }

  lemma StepShape(s: State, step: Step)
    requires Inv(s.t) && Shape(s)
    ensures Shape(Next(s, step))
  {
    if !Enabled(s, step) { return; }
    TracingShape(s, step);
    match step
    case CompleteClone(c, ok) =>
      if ok {
        CloneInside(s, c);
        CapturedFits(c, s.t.clones[c]);
        QueueShape(s, Captured(c, s.t.clones[c]));
      }
    case SnapshotRequest(sector, sectors) => QueueShape(s, Bio(0, false, sector, sectors, []));
    case CowThread(outcome) =>
      RestShape(s.blocks, s.cowQ);
      HandleShape(s.(cowQ := DelayRead.Rest(s.cowQ)), s.cowQ[DelayRead.Picked(s.cowQ)], outcome);
    case _ =>
  }

  // ---------------------------------------------------- capture before release

  ghost predicate Outstanding(t: Tracing, id: nat, b: nat) {
    exists c :: c in t.clones && t.clones[c].owner == id && t.clones[c].first <= b < t.clones[c].end
  }

  /** A block that has its clone is either queued already or still being read. */
  ghost predicate CoveredTraces(t: Tracing, seen: set<nat>) {
    forall id, b: nat :: id in t.traces && t.traces[id].first <= b < t.traces[id].next ==>
      b in seen || Outstanding(t, id, b)
  }

  predicate Settled(t: Tracing) {
    forall id :: id in t.traces && !t.traces[id].holder ==> t.traces[id].next == t.traces[id].end
  }

  /** Only blocks with a queued clone are ever overwritten. */
  ghost predicate CoveredHeld(t: Tracing, seen: set<nat>) {
    forall id, b: nat :: id in t.held && Touches(t.held[id].sector, t.held[id].sectors, b) ==> b in seen
  }

  ghost predicate Covered(t: Tracing, seen: set<nat>) {
    CoveredTraces(t, seen) && Settled(t) && CoveredHeld(t, seen)
  }

  lemma NothingOutstanding(t: Tracing, id: nat, b: nat)
    requires ClonesOf(t, id) == {}
    ensures !Outstanding(t, id, b)
  {
    forall c | c in t.clones
      ensures t.clones[c].owner != id
    {
      assert t.clones[c].owner == id ==> c in ClonesOf(t, id);
    }
  }

  lemma PutCovered(blocks: nat, t: Tracing, id: nat, seen: set<nat>)
    requires Covered(t, seen) && id in t.traces && OkTrace(t, id, 1) && TraceExtent(blocks, t.traces[id])
    ensures Covered(Put(t, id), seen)
  {
    var t' := Put(t, id);
    forall i, b: nat | i in t'.traces && t'.traces[i].first <= b < t'.traces[i].next && b !in seen
      ensures Outstanding(t', i, b)
    {
      assert Outstanding(t, i, b);
    }
    if t.traces[id].refs <= 1 {
      forall b: nat | t.traces[id].first <= b < t.traces[id].end
        ensures b in seen
      {
        NothingOutstanding(t, id, b);
      }
    }
  }

  lemma DropHolderCovered(blocks: nat, t: Tracing, id: nat, seen: set<nat>)
    requires Covered(t, seen) && id in t.traces && OkTrace(t, id, 0) && TraceExtent(blocks, t.traces[id])
    requires t.traces[id].holder && t.traces[id].next == t.traces[id].end
    ensures Covered(DropHolder(t, id), seen)
  {
    var mid := t.(traces := t.traces[id := t.traces[id].(holder := false)]);
    assert ClonesOf(mid, id) == ClonesOf(t, id);
    forall i, b: nat | i in mid.traces && mid.traces[i].first <= b < mid.traces[i].next && b !in seen
      ensures Outstanding(mid, i, b)
    {
      assert Outstanding(t, i, b);
    }
    PutCovered(blocks, mid, id, seen);
  }

  lemma CompleteCovered(blocks: nat, t: Tracing, c: nat, seen: set<nat>, seen': set<nat>)
    requires Inv(t) && Extents(blocks, t) && Covered(t, seen) && c in t.clones
    requires seen <= seen'
    requires forall b: nat :: t.clones[c].first <= b < t.clones[c].end ==> b in seen'
    ensures t.clones[c].owner in t.traces && Covered(Complete(t, c), seen')
  {
    var id := t.clones[c].owner;
    assert OkClone(t, c);
    var mid := RemoveClone(t, c);
    assert OkTrace(t, id, 0) && TraceExtent(blocks, t.traces[id]);
    assert c in ClonesOf(t, id) && ClonesOf(mid, id) == ClonesOf(t, id) - {c};
    forall i, b: nat | i in mid.traces && mid.traces[i].first <= b < mid.traces[i].next && b !in seen'
      ensures Outstanding(mid, i, b)
    {
      assert Outstanding(t, i, b);
      var d :| d in t.clones && t.clones[d].owner == i && t.clones[d].first <= b < t.clones[d].end;
      assert d in mid.clones;
    }
    PutCovered(blocks, mid, id, seen');
  }

  lemma IssueCovered(t: Tracing, id: nat, pages: nat, seen: set<nat>)
    requires OkTraces(t) && OkClones(t) && Covered(t, seen) && id in t.traces
    requires 0 < pages <= t.traces[id].end - t.traces[id].next && t.traces[id].holder
    ensures Covered(Issue(t, id, pages), seen)
  {
    FreshClone(t);
    var t' := Issue(t, id, pages);
    forall i, b: nat | i in t'.traces && t'.traces[i].first <= b < t'.traces[i].next && b !in seen
      ensures Outstanding(t', i, b)
    {
      if i == id && b >= t.traces[id].next {
        assert t'.clones[t.made].owner == i;
      } else {
        assert Outstanding(t, i, b);
        var d :| d in t.clones && t.clones[d].owner == i && t.clones[d].first <= b < t.clones[d].end;
        assert d in t'.clones && t'.clones[d] == t.clones[d];
      }
    }
  }

  lemma BeginCovered(t: Tracing, w: Write, seen: set<nat>)
    requires Covered(t, seen)
    ensures Covered(Begin(t, w), seen)
  {
    var t' := Begin(t, w);
    forall i, b: nat | i in t'.traces && t'.traces[i].first <= b < t'.traces[i].next && b !in seen
      ensures Outstanding(t', i, b)
    {
      assert Outstanding(t, i, b);
    }
  }

  /** Submission, capture and acknowledgement keep every clone's extent. */
  lemma FrameCovered(t: Tracing, t': Tracing, seen: set<nat>)
    requires Covered(t, seen) && t'.traces == t.traces
    requires t'.clones.Keys == t.clones.Keys
    requires forall c :: c in t.clones ==>
               && t'.clones[c].owner == t.clones[c].owner
               && t'.clones[c].first == t.clones[c].first && t'.clones[c].end == t.clones[c].end
    requires forall id :: id in t'.held ==> id in t.held && t'.held[id] == t.held[id]
    ensures Covered(t', seen)
  {
    forall i, b: nat | i in t'.traces && t'.traces[i].first <= b < t'.traces[i].next && b !in seen
      ensures Outstanding(t', i, b)
    {
      assert Outstanding(t, i, b);
      var d :| d in t.clones && t.clones[d].owner == i && t.clones[d].first <= b < t.clones[d].end;
      assert d in t'.clones;
    }
  }

  lemma LightStepCovered(s: State, step: Step)
    requires Covered(s.t, s.firsts.Keys)
    requires step.SubmitClone? || step.CaptureBlock? || step.SubmitOriginal? || step.Acknowledge?
    ensures Covered(Next(s, step).t, Next(s, step).firsts.Keys)
  {
    if step.SubmitClone? || step.CaptureBlock? { CloneStepFrame(s, step); } else { WriteStepFrame(s, step); }
    FrameCovered(s.t, Next(s, step).t, s.firsts.Keys);
  }

  lemma CloneStepFrame(s: State, step: Step)
    requires step.SubmitClone? || step.CaptureBlock?
    ensures var t, t' := s.t, Next(s, step).t;
            && Next(s, step).firsts == s.firsts && t'.traces == t.traces && t'.held == t.held
            && t'.clones.Keys == t.clones.Keys
            && forall c :: c in t.clones ==>
                 && t'.clones[c].owner == t.clones[c].owner
                 && t'.clones[c].first == t.clones[c].first && t'.clones[c].end == t.clones[c].end
  {
  }

  lemma WriteStepFrame(s: State, step: Step)
    requires step.SubmitOriginal? || step.Acknowledge?
    ensures var t, t' := s.t, Next(s, step).t;
            && Next(s, step).firsts == s.firsts && t'.traces == t.traces && t'.clones == t.clones
            && forall id :: id in t'.held ==> id in t.held && t'.held[id] == t.held[id]
  {
  }

  lemma StoredAfterClone(store: map<nat, Page>, clone: Bio, b: nat)
    requires WellFormedClone(clone)
    ensures var store' := StoreClone(store, clone);
            && (b in store' <==> b in store || Covers(clone, b))
            && (b in store ==> store'[b] == store[b])
            && (b !in store && Covers(clone, b) ==> store'[b] == PageOf(clone, b))
  {
  }

  lemma CompleteIsQueue(s: State, c: nat)
    requires Enabled(s, CompleteClone(c, true))
    ensures Next(s, CompleteClone(c, true)) == Queue(s, Captured(c, s.t.clones[c])).(t := Complete(s.t, c))
  {
  }

  /** Completing a clone queues it: it is first for the blocks not seen before. */
  lemma CompleteQueues(s: State, c: nat)
    requires Enabled(s, CompleteClone(c, true)) && PagesFull(s.t.clones[c].got)
    ensures var clone, s' := s.t.clones[c], Next(s, CompleteClone(c, true));
            && s' == Queue(s, Captured(c, clone)).(t := Complete(s.t, c))
            && (forall b: nat :: b in s'.firsts <==> b in s.firsts || clone.first <= b < clone.end)
            && (forall b: nat :: b in s'.firsts ==>
                  s'.firsts[b] == if b in s.firsts then s.firsts[b] else clone.got[b])
  {
    CompleteIsQueue(s, c);
    var clone, firsts := s.t.clones[c], StoreClone(s.firsts, Captured(c, s.t.clones[c]));
    CapturedFits(c, clone);
    forall b: nat
      ensures b in firsts <==> b in s.firsts || clone.first <= b < clone.end
      ensures b in firsts ==> firsts[b] == if b in s.firsts then s.firsts[b] else clone.got[b]
    {
      StoredAfterClone(s.firsts, Captured(c, clone), b);
    }
  }

  lemma CompleteStepCovered(s: State, c: nat)
    requires Inv(s.t) && Shape(s) && Covered(s.t, s.firsts.Keys)
    requires Enabled(s, CompleteClone(c, true))
    ensures var s' := Next(s, CompleteClone(c, true)); Covered(s'.t, s'.firsts.Keys)
  {
    CompleteQueues(s, c);
    CompleteCovered(s.blocks, s.t, c, s.firsts.Keys, Next(s, CompleteClone(c, true)).firsts.Keys);
  }

  lemma CowThreadFrame(s: State, outcome: Handling)
    requires s.cowQ != []
    ensures var s' := Next(s, CowThread(outcome));
            && s'.t == s.t && s'.firsts == s.firsts && s'.base == s.base && s'.snap == s.snap
            && s'.untraced == s.untraced && s'.blocks == s.blocks && s'.cowQ == DelayRead.Rest(s.cowQ)
            && s'.submitted == s.submitted && s'.received == s.received
  {
  }

  lemma StepCovered(s: State, step: Step)
    requires Inv(s.t) && Shape(s) && Covered(s.t, s.firsts.Keys)
    requires !Next(s, step).fail
    ensures Covered(Next(s, step).t, Next(s, step).firsts.Keys)
  {
    if !Enabled(s, step) { return; }
    match step
    case BeginTrace(w) => BeginCovered(s.t, w, s.firsts.Keys);
    case IssueClone(id, pages) => IssueCovered(s.t, id, pages, s.firsts.Keys);
    case FinishTrace(id) =>
      assert OkTrace(s.t, id, 0) && TraceExtent(s.blocks, s.t.traces[id]);
      DropHolderCovered(s.blocks, s.t, id, s.firsts.Keys);
    case CompleteClone(c, ok) => CompleteStepCovered(s, c);
    case CowThread(outcome) => CowThreadFrame(s, outcome);
    case SubmitClone => LightStepCovered(s, step);
    case CaptureBlock(_, _) => LightStepCovered(s, step);
    case SubmitOriginal => LightStepCovered(s, step);
    case Acknowledge(_) => LightStepCovered(s, step);
    case _ =>
  }

  // --------------------------------------------------------- captured contents

  /** A block nobody queued a clone for still has its snapshot contents on the
      device; the first clone queued for a block carries them. */
  predicate Sound(s: State)
    requires |s.snap| == s.blocks * 512 && |s.base| == s.blocks * 512
  {
    forall b: nat :: b < s.blocks && b !in s.untraced ==>
      if b in s.firsts then s.firsts[b] == BlockAt(s.snap, b) else BlockAt(s.base, b) == BlockAt(s.snap, b)
  }

  /** Reads in flight of such a block have seen its snapshot contents. */
  predicate SoundClones(s: State)
    requires |s.snap| == s.blocks * 512
  {
    forall c, b: nat ::
      (c in s.t.clones && b in s.t.clones[c].got && b < s.blocks && b !in s.untraced && b !in s.firsts) ==>
        s.t.clones[c].got[b] == BlockAt(s.snap, b)
  }

  lemma WriteElsewhere(image: seq<Word>, word: nat, value: Word, b: nat)
    requires word < |image| && (b + 1) * 512 <= |image| && word / 512 != b
    ensures BlockAt(image[word := value], b) == BlockAt(image, b)
  {
  }

  lemma WrittenBlockIsTouched(w: Write, word: nat)
    requires Writes(w, word)
    ensures Touches(w.sector, w.sectors, word / 512)
  {
  }

  lemma BaseSound(s: State, word: nat, value: Word, s': State)
    requires Shape(s) && Sound(s) && SoundClones(s) && word < |s.base|
    requires s' == s.(base := s.base[word := value], untraced := s'.untraced)
    requires s.untraced <= s'.untraced && (word / 512 in s'.untraced || word / 512 in s.firsts)
    ensures Sound(s') && SoundClones(s')
  {
    forall b: nat | b < s.blocks && b !in s'.untraced && b !in s.firsts
      ensures BlockAt(s'.base, b) == BlockAt(s.snap, b)
    {
      WriteElsewhere(s.base, word, value, b);
    }
  }

  lemma TracingSound(s: State, t': Tracing)
    requires Shape(s) && Sound(s) && SoundClones(s)
    requires forall c, b: nat :: c in t'.clones && b in t'.clones[c].got ==>
               || (c in s.t.clones && b in s.t.clones[c].got && t'.clones[c].got[b] == s.t.clones[c].got[b])
               || (b < s.blocks ==> t'.clones[c].got[b] == BlockAt(s.base, b))
    ensures Sound(s.(t := t')) && SoundClones(s.(t := t'))
  {
  }

  lemma PutLeavesClones(t: Tracing, id: nat)
    requires id in t.traces
    ensures Put(t, id).clones == t.clones && DropHolder(t, id).clones == t.clones
  {
  }

  lemma CompleteSound(s: State, c: nat)
    requires Shape(s) && Sound(s) && SoundClones(s)
    requires Enabled(s, CompleteClone(c, true))
    ensures var s' := Next(s, CompleteClone(c, true));
            && s'.snap == s.snap && s'.base == s.base && s'.blocks == s.blocks && s'.untraced == s.untraced
            && Sound(s') && SoundClones(s')
  {
    CompleteQueues(s, c);
    PutLeavesClones(RemoveClone(s.t, c), s.t.clones[c].owner);
  }

  lemma DeviceSound(s: State, step: Step)
    requires Shape(s) && Covered(s.t, s.firsts.Keys) && Sound(s) && SoundClones(s)
    requires (step.Land? || step.Stray?) && Enabled(s, step)
    ensures Shape(Next(s, step)) && Sound(Next(s, step)) && SoundClones(Next(s, step))
  {
    if step.Land? {
      var w := s.t.held[step.id];
      WrittenBlockIsTouched(w, step.word);
      BaseSound(s, step.word, w.payload[step.word - w.sector * 64], Next(s, step));
    } else {
      BaseSound(s, step.word, step.value, Next(s, step));
    }
  }

  lemma TracingStepSound(s: State, step: Step)
    requires Shape(s) && Sound(s) && SoundClones(s)
    requires step.SubmitClone? || step.CaptureBlock? || step.FinishTrace? || step.IssueClone?
    ensures var s' := Next(s, step);
            s'.snap == s.snap && s'.base == s.base && s'.blocks == s.blocks && Sound(s') && SoundClones(s')
  {
    if Enabled(s, step) {
      if step.FinishTrace? { PutLeavesClones(s.t, step.id); }
      TracingSound(s, Next(s, step).t);
    }
  }

  lemma StepSound(s: State, step: Step)
    requires Inv(s.t) && Shape(s) && Covered(s.t, s.firsts.Keys) && Sound(s) && SoundClones(s)
    requires !Next(s, step).fail
    ensures Shape(Next(s, step)) && Sound(Next(s, step)) && SoundClones(Next(s, step))
  {
    StepShape(s, step);
    if !Enabled(s, step) { return; }
    match step
    case Land(_, _) => DeviceSound(s, step);
    case Stray(_, _) => DeviceSound(s, step);
    case CompleteClone(c, ok) => CompleteSound(s, c);
    case CowThread(outcome) => CowThreadFrame(s, outcome);
    case SubmitClone => TracingStepSound(s, step);
    case CaptureBlock(_, _) => TracingStepSound(s, step);
    case FinishTrace(_) => TracingStepSound(s, step);
    case IssueClone(_, _) => TracingStepSound(s, step);
    case _ =>
  }

  // ------------------------------------------------- queued and stored clones

  predicate Pending(q: seq<Bio>, b: nat) {
    DelayRead.FirstCover(q, b) < |q|
  }

  /** Only blocks seen in a queued clone are queued or stored, and a block seen
      stays queued until it is stored. */
  ghost predicate Tracked(s: State) {
    && s.store.Keys <= s.firsts.Keys
    && (forall i, b: nat :: 0 <= i < |s.cowQ| && s.cowQ[i].write && Covers(s.cowQ[i], b) ==> b in s.firsts)
    && (forall b :: b in s.firsts && b !in s.store ==> Pending(s.cowQ, b))
  }

  /** The first contents queued for a block are the ones stored, or next in line. */
  predicate FirstsKept(s: State)
    requires DelayRead.WellFormedQueue(s.cowQ)
  {
    && (forall b :: b in s.firsts && b in s.store ==> s.store[b] == s.firsts[b])
    && (forall b :: b in s.firsts && b !in s.store && Pending(s.cowQ, b) ==>
          PageOf(s.cowQ[DelayRead.FirstCover(s.cowQ, b)], b) == s.firsts[b])
  }

  lemma CoverAfterAdd(q: seq<Bio>, bio: Bio, b: nat)
    ensures Pending(q, b) ==> DelayRead.FirstCover(q + [bio], b) == DelayRead.FirstCover(q, b)
    ensures !Pending(q, b) && bio.write && Covers(bio, b) ==> DelayRead.FirstCover(q + [bio], b) == |q|
  {
    var f := DelayRead.FirstCover(q + [bio], b);
    assert forall i :: 0 <= i < |q| ==> (q + [bio])[i] == q[i];
    assert (q + [bio])[|q|] == bio;
  }

  lemma RestAt(q: seq<Bio>, i: nat)
    requires q != [] && i < |q| - 1
    ensures var k := DelayRead.Picked(q);
            DelayRead.Rest(q)[i] == if k > 0 && i == k - 1 then q[0] else q[i + 1]
  {
  }

  lemma FirstCoverIs(q: seq<Bio>, b: nat, f: nat)
    requires f < |q| && q[f].write && Covers(q[f], b)
    requires forall i :: 0 <= i < f ==> !(q[i].write && Covers(q[i], b))
    ensures DelayRead.FirstCover(q, b) == f
  {
  }

  /** The same on any queue with one entry moved to the place of the one taken out. */
  lemma CoverMoves(q: seq<Bio>, rest: seq<Bio>, k: nat, b: nat, f: nat)
    requires k < |q| && |rest| == |q| - 1 && f < |q| && f != k && (k > 0 ==> !q[0].write)
    requires forall i :: 0 <= i < |rest| ==> rest[i] == if k > 0 && i == k - 1 then q[0] else q[i + 1]
    requires q[f].write && Covers(q[f], b) && forall i :: 0 <= i < f ==> !(q[i].write && Covers(q[i], b))
    ensures f > 0 && DelayRead.FirstCover(rest, b) == f - 1 && rest[f - 1] == q[f]
  {
    assert rest[f - 1] == q[f];
    FirstCoverIs(rest, b, f - 1);
  }

  /** A dequeue leaves the first cover of a block first, unless it returns it. */
  lemma CoverAfterDequeue(q: seq<Bio>, b: nat)
    requires q != [] && Pending(q, b)
    requires var k := DelayRead.Picked(q); !(q[k].write && Covers(q[k], b))
    ensures var f, rest := DelayRead.FirstCover(q, b), DelayRead.Rest(q);
            f > 0 && DelayRead.FirstCover(rest, b) == f - 1 && rest[f - 1] == q[f]
  {
    var f, k, rest := DelayRead.FirstCover(q, b), DelayRead.Picked(q), DelayRead.Rest(q);
    forall i | 0 <= i < |rest|
      ensures rest[i] == if k > 0 && i == k - 1 then q[0] else q[i + 1]
    {
      RestAt(q, i);
    }
    CoverMoves(q, rest, k, b, f);
  }

  lemma DequeuedWasQueued(q: seq<Bio>, i: nat)
    requires q != [] && i < |q| - 1
    ensures exists j :: 0 <= j < |q| && DelayRead.Rest(q)[i] == q[j]
  {
    RestAt(q, i);
  }

  lemma CloneHandled(s: State)
    requires Shape(s) && Tracked(s) && !s.fail && s.cowQ != [] && s.cowQ[DelayRead.Picked(s.cowQ)].write
    ensures var s' := Next(s, CowThread(Handled));
            && Tracked(s')
            && (Shape(s') && FirstsKept(s) && !DelayRead.Overtakes(s.cowQ, s.store.Keys) ==> FirstsKept(s'))
  {
    var s' := Next(s, CowThread(Handled));
    var k := DelayRead.Picked(s.cowQ);
    var clone := s.cowQ[k];
    forall i, b: nat | 0 <= i < |s'.cowQ| && s'.cowQ[i].write && Covers(s'.cowQ[i], b)
      ensures b in s'.firsts
    {
      DequeuedWasQueued(s.cowQ, i);
    }
    forall b | b in s.firsts
      ensures b !in s'.store ==> Pending(s'.cowQ, b)
    {
      StoredAfterClone(s.store, clone, b);
      if b !in s'.store { CoverAfterDequeue(s.cowQ, b); }
    }
    forall b | b in s'.store
      ensures b in s.firsts
    {
      StoredAfterClone(s.store, clone, b);
    }
    if Shape(s') && FirstsKept(s) && !DelayRead.Overtakes(s.cowQ, s.store.Keys) {
      CloneKeepsFirsts(s);
    }
  }

  lemma CloneKeepsFirsts(s: State)
    requires Shape(s) && Tracked(s) && !s.fail && s.cowQ != [] && s.cowQ[DelayRead.Picked(s.cowQ)].write
    requires FirstsKept(s) && !DelayRead.Overtakes(s.cowQ, s.store.Keys)
    requires Shape(Next(s, CowThread(Handled)))
    ensures FirstsKept(Next(s, CowThread(Handled)))
  {
    var s' := Next(s, CowThread(Handled));
    HandledClone(s);
    forall b | b in s.firsts
      ensures b in s'.store ==> s'.store[b] == s.firsts[b]
      ensures b !in s'.store && Pending(s'.cowQ, b) ==>
                PageOf(s'.cowQ[DelayRead.FirstCover(s'.cowQ, b)], b) == s.firsts[b]
    {
      assert b !in s.store ==> !DelayRead.OvertakesAt(s.cowQ, b);
      FirstKeptAt(s.cowQ, s.store, s.firsts[b], b);
    }
  }

  lemma HandledClone(s: State)
    requires !s.fail && s.cowQ != [] && s.cowQ[DelayRead.Picked(s.cowQ)].write
    ensures var s' := Next(s, CowThread(Handled));
            && s'.cowQ == DelayRead.Rest(s.cowQ) && s'.firsts == s.firsts
            && s'.store == StoreClone(s.store, s.cowQ[DelayRead.Picked(s.cowQ)])
  {
  }

  lemma PickedIsFirst(q: seq<Bio>, b: nat, k: nat)
    requires k < |q| && q[k].write && Covers(q[k], b) && DelayRead.FirstCover(q, b) >= k
    ensures DelayRead.FirstCover(q, b) == k
  {
  }

  /** One block, when a clone is taken off the queue and stored: its first page ... */
  lemma FirstStored(q: seq<Bio>, store: map<nat, Page>, b: nat)
    requires q != [] && DelayRead.WellFormedQueue(q) && q[DelayRead.Picked(q)].write
    requires !DelayRead.OvertakesAt(q, b) && b !in store && Covers(q[DelayRead.Picked(q)], b)
    ensures var store' := StoreClone(store, q[DelayRead.Picked(q)]);
            && Pending(q, b) && b in store' && store'[b] == PageOf(q[DelayRead.FirstCover(q, b)], b)
  {
    PickedIsFirst(q, b, DelayRead.Picked(q));
    StoredAfterClone(store, q[DelayRead.Picked(q)], b);
  }

  /** ... is stored, or stays the first one queued. */
  lemma FirstKeptAt(q: seq<Bio>, store: map<nat, Page>, page: Page, b: nat)
    requires q != [] && DelayRead.WellFormedQueue(q) && DelayRead.WellFormedQueue(DelayRead.Rest(q))
    requires q[DelayRead.Picked(q)].write && (b !in store ==> !DelayRead.OvertakesAt(q, b) && Pending(q, b))
    requires if b in store then store[b] == page else PageOf(q[DelayRead.FirstCover(q, b)], b) == page
    ensures var store', q' := StoreClone(store, q[DelayRead.Picked(q)]), DelayRead.Rest(q);
            && (b in store' ==> store'[b] == page)
            && (b !in store' && Pending(q', b) ==> PageOf(q'[DelayRead.FirstCover(q', b)], b) == page)
  {
    if b !in store && Covers(q[DelayRead.Picked(q)], b) {
      FirstStored(q, store, b);
    } else {
      StoredAfterClone(store, q[DelayRead.Picked(q)], b);
      if b !in store { CoverAfterDequeue(q, b); }
    }
  }

  /** Reads do not disturb the order of the clones. */
  lemma ReadHandled(s: State, s': State)
    requires Shape(s) && Shape(s') && Tracked(s) && s.cowQ != [] && !s.cowQ[DelayRead.Picked(s.cowQ)].write
    requires s'.firsts == s.firsts && s'.store == s.store && s'.cowQ == DelayRead.Rest(s.cowQ)
    ensures Tracked(s') && (FirstsKept(s) ==> FirstsKept(s'))
  {
    forall i, b: nat | 0 <= i < |s'.cowQ| && s'.cowQ[i].write && Covers(s'.cowQ[i], b)
      ensures b in s'.firsts
    {
      DequeuedWasQueued(s.cowQ, i);
    }
    forall b | b in s.firsts && b !in s.store
      ensures Pending(s'.cowQ, b)
      ensures s'.cowQ[DelayRead.FirstCover(s'.cowQ, b)] == s.cowQ[DelayRead.FirstCover(s.cowQ, b)]
    {
      CoverAfterDequeue(s.cowQ, b);
    }
  }

  lemma RequestQueued(s: State, s': State, bio: Bio)
    requires Shape(s) && Shape(s') && Tracked(s) && !bio.write
    requires s'.firsts == s.firsts && s'.store == s.store && s'.cowQ == s.cowQ + [bio]
    ensures Tracked(s') && (FirstsKept(s) ==> FirstsKept(s'))
  {
    forall b | b in s.firsts && b !in s.store
      ensures Pending(s'.cowQ, b)
      ensures s'.cowQ[DelayRead.FirstCover(s'.cowQ, b)] == s.cowQ[DelayRead.FirstCover(s.cowQ, b)]
    {
      CoverAfterAdd(s.cowQ, bio, b);
    }
  }

  lemma CloneQueuedAt(s: State, bio: Bio, b: nat)
    requires Shape(s) && Tracked(s) && WellFormedClone(bio) && b !in s.store
    requires b in s.firsts || Covers(bio, b)
    ensures var q := s.cowQ + [bio];
            && Pending(q, b)
            && q[DelayRead.FirstCover(q, b)]
               == if b in s.firsts then s.cowQ[DelayRead.FirstCover(s.cowQ, b)] else bio
  {
    CoverAfterAdd(s.cowQ, bio, b);
    assert Pending(s.cowQ, b) ==> b in s.firsts;
  }

  /** A well-formed clone is put at the end of the queue. */
  lemma QueuedIsTracked(s: State, s': State, bio: Bio)
    requires Shape(s) && Shape(s') && Tracked(s) && WellFormedClone(bio) && bio.write
    requires s'.cowQ == s.cowQ + [bio] && s'.store == s.store
    requires forall b: nat :: b in s'.firsts <==> b in s.firsts || Covers(bio, b)
    requires forall b: nat :: b in s'.firsts ==>
               s'.firsts[b] == if b in s.firsts then s.firsts[b] else PageOf(bio, b)
    ensures Tracked(s') && (FirstsKept(s) ==> FirstsKept(s'))
  {
    forall b | b in s'.firsts && b !in s.store
      ensures Pending(s'.cowQ, b)
      ensures FirstsKept(s) ==> PageOf(s'.cowQ[DelayRead.FirstCover(s'.cowQ, b)], b) == s'.firsts[b]
    {
      CloneQueuedAt(s, bio, b);
    }
  }

  lemma CloneQueued(s: State, c: nat)
    requires Shape(s) && Tracked(s) && Enabled(s, CompleteClone(c, true))
    requires Shape(Next(s, CompleteClone(c, true)))
    ensures Tracked(Next(s, CompleteClone(c, true)))
    ensures FirstsKept(s) ==> FirstsKept(Next(s, CompleteClone(c, true)))
  {
    CompleteQueues(s, c);
    CapturedFits(c, s.t.clones[c]);
    QueuedIsTracked(s, Next(s, CompleteClone(c, true)), Captured(c, s.t.clones[c]));
  }

  lemma StepTracked(s: State, step: Step)
    requires Shape(s) && Shape(Next(s, step)) && Tracked(s) && !Next(s, step).fail
    ensures Tracked(Next(s, step))
    ensures FirstsKept(s) && (step.CowThread? && s.cowQ != [] ==> !DelayRead.Overtakes(s.cowQ, s.store.Keys))
            ==> FirstsKept(Next(s, step))
  {
    if !Enabled(s, step) { return; }
    match step
    case CompleteClone(c, ok) => CloneQueued(s, c);
    case SnapshotRequest(sector, sectors) =>
      RequestQueued(s, Next(s, step), Bio(0, false, sector, sectors, []));
    case CowThread(outcome) =>
      if s.cowQ[DelayRead.Picked(s.cowQ)].write {
        CloneHandled(s);
      } else {
        ReadHandled(s, Next(s, step));
      }
    case _ =>
  }

  // ------------------------------------------------------------------ theorems

  /** What holds in every reachable state, and before a failure, in any order. */
  ghost predicate Good(s: State) {
    Inv(s.t) && Shape(s) && Counting(s) && (!s.fail ==> Alive(s))
  }

  ghost predicate Alive(s: State)
    requires Shape(s)
  {
    Covered(s.t, s.firsts.Keys) && Sound(s) && SoundClones(s) && Tracked(s)
  }

  /** A clone whose read failed is never counted as received. */
  predicate Counting(s: State) {
    s.submitted == s.received + |s.t.clones| + s.broken && (s.broken > 0 ==> s.fail)
  }

  lemma CompleteCounts(s: State, c: nat, ok: bool)
    requires Counting(s) && Enabled(s, CompleteClone(c, ok))
    ensures Counting(Next(s, CompleteClone(c, ok)))
  {
    PutLeavesClones(RemoveClone(s.t, c), s.t.clones[c].owner);
    assert Complete(s.t, c).clones.Keys == s.t.clones.Keys - {c};
  }

  lemma IssueCounts(s: State, id: nat, pages: nat)
    requires OkClones(s.t) && Counting(s) && Enabled(s, IssueClone(id, pages))
    ensures Counting(Next(s, IssueClone(id, pages)))
  {
    FreshClone(s.t);
    assert Issue(s.t, id, pages).clones.Keys == s.t.clones.Keys + {s.t.made};
  }

  lemma LightCounts(s: State, step: Step)
    requires Counting(s) && Enabled(s, step)
    requires step.SubmitOriginal? || step.Land? || step.Acknowledge? || step.SnapshotRequest? || step.Stray?
    ensures Counting(Next(s, step))
  {
  }

  lemma KeptClonesCount(s: State, step: Step)
    requires Counting(s) && Enabled(s, step) && (step.BeginTrace? || step.SubmitClone? || step.CaptureBlock?)
    ensures Counting(Next(s, step))
  {
    assert Next(s, step).t.clones.Keys == s.t.clones.Keys;
  }

  lemma DropLeavesClones(t: Tracing, id: nat)
    requires id in t.traces
    ensures DropHolder(t, id).clones == t.clones
  {
  }

  lemma HandleCounts(s: State, outcome: Handling)
    requires Counting(s) && s.cowQ != []
    ensures Counting(Next(s, CowThread(outcome)))
  {
  }

  lemma CountersStep(s: State, step: Step)
    requires Inv(s.t) && Counting(s)
    ensures Counting(Next(s, step))
  {
    if !Enabled(s, step) { return; }
    match step
    case IssueClone(id, pages) => IssueCounts(s, id, pages);
    case CompleteClone(c, ok) => CompleteCounts(s, c, ok);
    case FinishTrace(id) => DropLeavesClones(s.t, id);
    case AbortTrace(id) => DropLeavesClones(s.t, id);
    case CowThread(outcome) => HandleCounts(s, outcome);
    case PassWrite(_) =>
    case BeginTrace(_) => KeptClonesCount(s, step);
    case SubmitClone => KeptClonesCount(s, step);
    case CaptureBlock(_, _) => KeptClonesCount(s, step);
    case _ => LightCounts(s, step);
  }

  lemma FailureSticks(s: State, step: Step)
    requires s.fail
    ensures Next(s, step).fail
  {
  }

  lemma StepGood(s: State, step: Step)
    requires Good(s)
    ensures Good(Next(s, step))
  {
    TracingStep(s, step);
    StepShape(s, step);
    CountersStep(s, step);
    if s.fail {
      FailureSticks(s, step);
    } else if !Next(s, step).fail {
      StepCovered(s, step);
      StepSound(s, step);
      StepTracked(s, step);
    }
  }

  lemma {:induction false} RunGood(run: Run)
    requires run.Valid()
    ensures Good(run.Final())
  {
    match run
    case Start(_) =>
    case Then(prev, step) =>
      RunGood(prev);
      StepGood(prev.Final(), step);
  }

  /** Capture before overwrite, in any order of events: a block whose live
      contents differ from the snapshot has had a clone queued, the first such
      clone carried the snapshot contents, and until the store has the block
      some clone of it is still queued. */
  lemma CaptureBeforeOverwrite(run: Run, b: nat)
    requires run.Valid()
    requires var s := run.Final(); !s.fail && b < s.blocks && b !in s.untraced
    ensures var s := run.Final();
            && |s.base| == |s.snap| == s.blocks * 512
            && (BlockAt(s.base, b) != BlockAt(s.snap, b) ==> b in s.firsts)
            && (b in s.firsts ==>
                  s.firsts[b] == BlockAt(s.snap, b) && (b in s.store || Pending(s.cowQ, b)))
  {
    RunGood(run);
  }

  /** When the copy-on-write thread may stop, every changed block is stored. */
  lemma StoppedThreadStoredAll(run: Run, b: nat)
    requires run.Valid()
    requires var s := run.Final();
             && !s.fail && s.cowQ == [] && s.submitted == s.received
             && b < s.blocks && b !in s.untraced
    ensures var s := run.Final();
            && s.t.clones == map[]
            && |s.base| == |s.snap| == s.blocks * 512
            && (BlockAt(s.base, b) != BlockAt(s.snap, b) ==> b in s.store)
  {
    RunGood(run);
  }

  predicate SameWord(s: State, a: Answer, i: nat)
    requires i < |a.data|
  {
    var w := a.sector * 64 + i;
    w < |s.snap| && (w / 512 in s.untraced || a.data[i] == s.snap[w])
  }

  predicate AnswersRight(s: State) {
    forall k, i :: 0 <= k < |s.answers| && 0 <= i < |s.answers[k].data| ==> SameWord(s, s.answers[k], i)
  }

  lemma WordOfBlock(image: seq<Word>, w: nat)
    requires w < |image| && |image| % 512 == 0
    ensures (w / 512 + 1) * 512 <= |image| && BlockAt(image, w / 512)[w % 512] == image[w]
  {
  }

  lemma BlocksShareSectors(read: Bio, clone: Bio, w: nat)
    requires read.sector * 64 <= w < (read.sector + read.sectors) * 64
    requires WellFormedClone(clone) && Covers(clone, w / 512)
    ensures DelayRead.SharesSector(read, clone)
  {
    assert DelayRead.HasSector(read, w / 64) && DelayRead.HasSector(clone, w / 64);
  }

  /** A read that is returned finds every queued clone of its blocks stored. */
  lemma ClearReadBlock(s: State, w: nat)
    requires DelayRead.WellFormedQueue(s.cowQ) && Tracked(s)
    requires s.cowQ != [] && !s.cowQ[DelayRead.Picked(s.cowQ)].write
    requires var r := s.cowQ[DelayRead.Picked(s.cowQ)]; r.sector * 64 <= w < (r.sector + r.sectors) * 64
    ensures w / 512 in s.firsts ==> w / 512 in s.store
  {
    var r, f := s.cowQ[DelayRead.Picked(s.cowQ)], DelayRead.FirstCover(s.cowQ, w / 512);
    if f < |s.cowQ| {
      BlocksShareSectors(r, s.cowQ[f], w);
      assert Pending(s.cowQ, w / 512);
      DelayRead.ReturnedReadIsClear(s.cowQ, f);
    }
  }

  lemma AnswerRight(s: State, w: nat)
    requires Shape(s) && Alive(s) && FirstsKept(s)
    requires s.cowQ != [] && !s.cowQ[DelayRead.Picked(s.cowQ)].write
    requires var r := s.cowQ[DelayRead.Picked(s.cowQ)]; r.sector * 64 <= w < (r.sector + r.sectors) * 64
    requires w < |s.base| && w / 512 !in s.untraced
    ensures SnapshotWord(s.base, s.store, w) == s.snap[w]
  {
    ClearReadBlock(s, w);
    WordOfBlock(s.snap, w);
    WordOfBlock(s.base, w);
  }

  lemma AnswersStay(s: State, s': State)
    requires AnswersRight(s) && s'.snap == s.snap && s.untraced <= s'.untraced && s'.answers == s.answers
    ensures AnswersRight(s')
  {
    forall k, i | 0 <= k < |s'.answers| && 0 <= i < |s'.answers[k].data|
      ensures SameWord(s', s'.answers[k], i)
    {
      assert SameWord(s, s.answers[k], i);
    }
  }

  lemma PickedReadFits(s: State)
    requires Shape(s) && s.cowQ != [] && !s.cowQ[DelayRead.Picked(s.cowQ)].write
    ensures var r := s.cowQ[DelayRead.Picked(s.cowQ)]; (r.sector + r.sectors) * 64 <= |s.base| == |s.snap|
  {
    var k := DelayRead.Picked(s.cowQ);
    assert s.cowQ[k].sector + s.cowQ[k].sectors <= s.blocks * 8;
  }

  lemma ReadWordAnswered(s: State, r: Bio, i: nat)
    requires Shape(s) && Alive(s) && FirstsKept(s)
    requires s.cowQ != [] && r == s.cowQ[DelayRead.Picked(s.cowQ)] && !r.write
    requires (r.sector + r.sectors) * 64 <= |s.base| == |s.snap| && i < r.sectors * 64
    ensures SameWord(s, Answer(r.sector, r.sectors, SnapshotRead(s.base, s.store, r.sector, r.sectors)), i)
  {
    var w := r.sector * 64 + i;
    if w / 512 !in s.untraced { AnswerRight(s, w); }
  }

  lemma ReadWordsRight(s: State)
    requires Shape(s) && Alive(s) && FirstsKept(s) && s.cowQ != []
    requires !s.cowQ[DelayRead.Picked(s.cowQ)].write
    ensures var r := s.cowQ[DelayRead.Picked(s.cowQ)];
            && (r.sector + r.sectors) * 64 <= |s.base|
            && forall i :: 0 <= i < r.sectors * 64 ==>
                 SameWord(s, Answer(r.sector, r.sectors, SnapshotRead(s.base, s.store, r.sector, r.sectors)), i)
  {
    PickedReadFits(s);
    var r := s.cowQ[DelayRead.Picked(s.cowQ)];
    forall i | 0 <= i < r.sectors * 64
      ensures SameWord(s, Answer(r.sector, r.sectors, SnapshotRead(s.base, s.store, r.sector, r.sectors)), i)
    {
      ReadWordAnswered(s, r, i);
    }
  }

  lemma AnswerAdded(s: State, s': State, a: Answer)
    requires AnswersRight(s) && s'.snap == s.snap && s'.untraced == s.untraced && s'.answers == s.answers + [a]
    requires forall i :: 0 <= i < |a.data| ==> SameWord(s, a, i)
    ensures AnswersRight(s')
  {
    forall k, i | 0 <= k < |s'.answers| && 0 <= i < |s'.answers[k].data|
      ensures SameWord(s', s'.answers[k], i)
    {
      assert if k < |s.answers| then SameWord(s, s.answers[k], i) else SameWord(s, a, i);
    }
  }

  lemma CowThreadAnswers(s: State, outcome: Handling)
    requires Shape(s) && (!s.fail ==> Alive(s) && FirstsKept(s)) && AnswersRight(s) && s.cowQ != []
    ensures AnswersRight(Next(s, CowThread(outcome)))
  {
    var s' := Next(s, CowThread(outcome));
    CowThreadFrame(s, outcome);
    var r := s.cowQ[DelayRead.Picked(s.cowQ)];
    if s'.answers == s.answers {
      AnswersStay(s, s');
    } else {
      ReadWordsRight(s);
      AnswerAdded(s, s', Answer(r.sector, r.sectors, SnapshotRead(s.base, s.store, r.sector, r.sectors)));
    }
  }

  /** The thread's turn with a read answers exactly the request, all of it, with the
      snapshot's words. */
  lemma ReadAnswered(s: State)
    requires Shape(s) && Alive(s) && FirstsKept(s) && !s.fail && s.cowQ != []
    requires !s.cowQ[DelayRead.Picked(s.cowQ)].write
    ensures var r, s', n := s.cowQ[DelayRead.Picked(s.cowQ)], Next(s, CowThread(Handled)), |s.answers|;
            && |s'.answers| == n + 1 && s'.answers[..n] == s.answers
            && s'.answers[n].sector == r.sector && s'.answers[n].sectors == r.sectors
            && |s'.answers[n].data| == r.sectors * 64
            && forall i :: 0 <= i < r.sectors * 64 ==> SameWord(s, s'.answers[n], i)
  {
    PickedReadFits(s);
    ReadWordsRight(s);
  }

  lemma AnswersFrame(s: State, step: Step)
    requires !step.CowThread?
    ensures Next(s, step).answers == s.answers && Next(s, step).snap == s.snap
    ensures s.untraced <= Next(s, step).untraced
  {
  }

  lemma StepAnswers(s: State, step: Step)
    requires Shape(s) && (!s.fail ==> Alive(s) && FirstsKept(s)) && AnswersRight(s)
    ensures AnswersRight(Next(s, step))
  {
    if step.CowThread? && s.cowQ != [] {
      CowThreadAnswers(s, step.outcome);
    } else if !step.CowThread? {
      AnswersFrame(s, step);
      AnswersStay(s, Next(s, step));
    }
  }

  lemma {:induction false} OrderedRun(run: Run)
    requires run.Valid() && run.InOrder()
    ensures var s := run.Final(); Good(s) && (!s.fail ==> FirstsKept(s)) && AnswersRight(s)
  {
    RunGood(run);
    match run
    case Start(_) =>
    case Then(prev, step) =>
      OrderedRun(prev);
      var s := prev.Final();
      if s.fail {
        FailureSticks(s, step);
      } else if !Next(s, step).fail {
        StepTracked(s, step);
      }
      StepAnswers(s, step);
  }

  lemma OrderedAnswers(run: Run)
    requires run.Valid() && run.InOrder()
    ensures AnswersRight(run.Final())
  {
    OrderedRun(run);
  }

  lemma AnswerWord(s: State, k: nat, i: nat)
    requires AnswersRight(s) && k < |s.answers| && i < |s.answers[k].data|
    ensures var w := s.answers[k].sector * 64 + i;
            w < |s.snap| && (w / 512 !in s.untraced ==> s.answers[k].data[i] == s.snap[w])
  {
    assert SameWord(s, s.answers[k], i);
  }

  /** Snapshot isolation: in every run that lets no clone overtake an earlier one
      on a block not yet stored, whatever fails and however the actors interleave,
      each snapshot read that was answered returned, word for word, the device as
      it was at setup, except on blocks changed behind the tracer's back. */
  lemma SnapshotIsolation(run: Run, k: nat, i: nat)
    requires run.Valid() && run.InOrder()
    requires k < |run.Final().answers| && i < |run.Final().answers[k].data|
    ensures var s := run.Final();
            var w := s.answers[k].sector * 64 + i;
            w < |s.snap| && (w / 512 !in s.untraced ==> s.answers[k].data[i] == s.snap[w])
  {
    OrderedAnswers(run);
    AnswerWord(run.Final(), k, i);
  }
}
