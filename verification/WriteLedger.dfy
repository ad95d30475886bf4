/** What becomes of intercepted writes: the write that is let go is the one that was
    intercepted, writes are let go in the order of their release, and what lands on
    the device is their payload, in its own place. */
module WriteLedger {
  import opened Blocks
  import opened Tracker
  import opened Protocol
  import opened Isolation
  import DelayRead

  /** History: the writes intercepted, in order. */
  function Intercepted(run: Run): seq<Write>
    requires run.Valid()
  {
    match run
    case Start(_) => []
    case Then(prev, step) => Intercepted(prev) + (if Enabled(prev.Final(), step) then Arrives(step) else [])
  }

  function Arrives(step: Step): seq<Write> {
    match step
    case BeginTrace(w) => [w]
    case PassWrite(w) => [w]
    case _ => []
  }

  /** History: the writes handed to the device by the release thread, in order. */
  function HandedOn(run: Run): seq<nat>
    requires run.Valid()
  {
    match run
    case Start(_) => []
    case Then(prev, step) =>
      HandedOn(prev) + if Enabled(prev.Final(), step) then Handing(prev.Final(), step) else []
  }

  function Handing(s: State, step: Step): seq<nat>
    requires Enabled(s, step)
  {
    if step.SubmitOriginal? then [s.t.origQ[0]] else []
  }

  // ------------------------------------------------------------ the same write

  predicate Unchanged(t: Tracing, ws: seq<Write>) {
    && |ws| == t.writes
    && (forall id :: id in t.traces ==> id < |ws| && t.traces[id].write == ws[id])
    && (forall id :: id in t.held ==> id < |ws| && t.held[id] == ws[id])
  }

  lemma PutUnchanged(t: Tracing, id: nat, ws: seq<Write>)
    requires Unchanged(t, ws) && id in t.traces
    ensures Unchanged(Put(t, id), ws) && Unchanged(DropHolder(t, id), ws)
  {
  }

  lemma ArrivalUnchanged(t: Tracing, w: Write, ws: seq<Write>)
    requires Unchanged(t, ws)
    ensures Unchanged(Begin(t, w), ws + [w]) && Unchanged(LetThrough(t, w), ws + [w])
  {
  }

  lemma TracingUnchanged(t: Tracing, t': Tracing, ws: seq<Write>)
    requires Unchanged(t, ws) && t'.writes == t.writes
    requires forall id :: id in t'.traces ==> id in t.traces && t'.traces[id].write == t.traces[id].write
    requires forall id :: id in t'.held ==> id in t.held && t'.held[id] == t.held[id]
    ensures Unchanged(t', ws)
  {
  }

  lemma StepUnchanged(s: State, step: Step, ws: seq<Write>)
    requires Unchanged(s.t, ws) && Enabled(s, step)
    ensures Unchanged(Next(s, step).t, ws + Arrives(step))
  {
    assert ws + [] == ws;
    match step
    case BeginTrace(w) => ArrivalUnchanged(s.t, w, ws);
    case PassWrite(w) => ArrivalUnchanged(s.t, w, ws);
    case AbortTrace(id) => PutUnchanged(s.t, id, ws);
    case FinishTrace(id) => PutUnchanged(s.t, id, ws);
    case CompleteClone(c, _) => PutUnchanged(RemoveClone(s.t, c), s.t.clones[c].owner, ws);
    case CowThread(outcome) =>
      HandlingLeavesTracing(s.(cowQ := DelayRead.Rest(s.cowQ)), s.cowQ[DelayRead.Picked(s.cowQ)], outcome);
    case IssueClone(id, pages) => TracingUnchanged(s.t, Issue(s.t, id, pages), ws);
    case SubmitClone => TracingUnchanged(s.t, Submit(s.t), ws);
    case CaptureBlock(c, b) => TracingUnchanged(s.t, Capture(s.t, c, b, BlockAt(s.base, b)), ws);
    case SubmitOriginal => TracingUnchanged(s.t, Next(s, step).t, ws);
    case Acknowledge(_) => TracingUnchanged(s.t, Next(s, step).t, ws);
    case _ =>
  }

  lemma {:induction false} WritesUnchanged(run: Run)
    requires run.Valid()
    ensures Unchanged(run.Final().t, Intercepted(run))
  {
    match run
    case Start(_) =>
    case Then(prev, step) =>
      WritesUnchanged(prev);
      if Enabled(prev.Final(), step) {
        StepUnchanged(prev.Final(), step, Intercepted(prev));
      } else {
        assert Intercepted(run) == Intercepted(prev);
      }
  }

  // ------------------------------------------------------------------ the order

  /** Released writes are handed on in the order of their release, and a write that
      was let go waits for the release thread or is with the device. */
  predicate Queued(t: Tracing, handed: seq<nat>) {
    && t.released == handed + t.origQ
    && t.held.Keys == (set id | id in t.origQ) + t.landing
    && (forall id :: id in t.landing ==> id in handed || id in t.direct)
  }

  lemma PutQueued(t: Tracing, id: nat, handed: seq<nat>)
    requires Queued(t, handed) && id in t.traces
    ensures Queued(Put(t, id), handed)
  {
    var t' := Put(t, id);
    if t.traces[id].refs <= 1 {
      assert t'.released == handed + t'.origQ;
      assert (set i | i in t'.origQ) == (set i | i in t.origQ) + {id};
      assert t'.held.Keys == t.held.Keys + {id};
    }
  }

  lemma ThroughQueued(t: Tracing, w: Write, handed: seq<nat>)
    requires Queued(t, handed)
    ensures Queued(LetThrough(t, w), handed)
  {
    assert LetThrough(t, w).held.Keys == t.held.Keys + {t.writes};
  }

  lemma SubmitQueued(s: State, handed: seq<nat>)
    requires Queued(s.t, handed) && Enabled(s, SubmitOriginal)
    ensures Queued(Next(s, SubmitOriginal).t, handed + [s.t.origQ[0]])
  {
    var t, t' := s.t, Next(s, SubmitOriginal).t;
    assert t.origQ == [t.origQ[0]] + t'.origQ;
    assert t'.released == handed + [t.origQ[0]] + t'.origQ;
    assert (set i | i in t.origQ) == (set i | i in t'.origQ) + {t.origQ[0]};
  }

  lemma FirstPartOnly(a: seq<nat>, b: seq<nat>, id: nat)
    requires Distinct(a + b) && id in a
    ensures id !in b
  {
    var i :| 0 <= i < |a| && a[i] == id;
    forall j | 0 <= j < |b|
      ensures b[j] != id
    {
      assert (a + b)[i] == id && (a + b)[|a| + j] == b[j];
    }
  }

  lemma AcknowledgeQueued(s: State, id: nat, handed: seq<nat>)
    requires Accounted(s.t) && Queued(s.t, handed) && Enabled(s, Acknowledge(id))
    ensures Queued(Next(s, Acknowledge(id)).t, handed)
  {
    var t, t' := s.t, Next(s, Acknowledge(id)).t;
    if id in handed { FirstPartOnly(handed, t.origQ, id); }
    assert forall i :: i in t.origQ ==> i in t.released;
    assert t'.held.Keys == t.held.Keys - {id};
  }

  lemma SameQueued(t: Tracing, t': Tracing, handed: seq<nat>)
    requires Queued(t, handed) && t'.released == t.released && t'.origQ == t.origQ && t'.landing == t.landing
    requires t'.held == t.held && t'.direct == t.direct
    ensures Queued(t', handed)
  {
  }

  lemma StepQueued(s: State, step: Step, handed: seq<nat>)
    requires Inv(s.t) && Queued(s.t, handed) && Enabled(s, step)
    ensures Queued(Next(s, step).t, handed + Handing(s, step))
  {
    assert handed + [] == handed;
    match step
    case PassWrite(w) => ThroughQueued(s.t, w, handed);
    case AbortTrace(id) => DropQueued(s.t, id, handed);
    case FinishTrace(id) => DropQueued(s.t, id, handed);
    case CompleteClone(c, _) => PutQueued(RemoveClone(s.t, c), s.t.clones[c].owner, handed);
    case SubmitOriginal => SubmitQueued(s, handed);
    case Acknowledge(id) => AcknowledgeQueued(s, id, handed);
    case _ => OtherQueued(s, step, handed);
  }

  lemma DropQueued(t: Tracing, id: nat, handed: seq<nat>)
    requires Queued(t, handed) && id in t.traces
    ensures Queued(DropHolder(t, id), handed)
  {
    PutQueued(t.(traces := t.traces[id := t.traces[id].(holder := false)]), id, handed);
  }

  lemma OtherQueued(s: State, step: Step, handed: seq<nat>)
    requires Queued(s.t, handed) && Enabled(s, step)
    requires step.BeginTrace? || step.IssueClone? || step.SubmitClone? || step.CaptureBlock? || step.Land?
             || step.SnapshotRequest? || step.CowThread? || step.Stray?
    ensures Queued(Next(s, step).t, handed)
  {
    if step.CowThread? {
      HandlingLeavesTracing(s.(cowQ := DelayRead.Rest(s.cowQ)), s.cowQ[DelayRead.Picked(s.cowQ)], step.outcome);
    }
    SameQueued(s.t, Next(s, step).t, handed);
  }

  lemma {:induction false} HandedOnInOrder(run: Run)
    requires run.Valid()
    ensures Queued(run.Final().t, HandedOn(run))
  {
    match run
    case Start(_) =>
    case Then(prev, step) =>
      TracingRun(prev);
      HandedOnInOrder(prev);
      if Enabled(prev.Final(), step) {
        StepQueued(prev.Final(), step, HandedOn(prev));
      } else {
        assert HandedOn(run) == HandedOn(prev);
      }
  }

  // ------------------------------------------------------------ acknowledgement

  /** History: the writes the device has acknowledged. */
  function Acknowledged(run: Run): set<nat>
    requires run.Valid()
  {
    match run
    case Start(_) => {}
    case Then(prev, step) => Acknowledged(prev) + if Enabled(prev.Final(), step) then Settles(step) else {}
  }

  function Settles(step: Step): set<nat> {
    if step.Acknowledge? then {step.id} else {}
  }

  /** What was let go is held until it is acknowledged, and not after that. */
  ghost predicate HeldUntil(t: Tracing, acked: set<nat>) {
    && t.held.Keys !! acked
    && forall id: nat :: id in t.released || id in t.direct <==> id in t.held || id in acked
  }

  lemma PutHolds(t: Tracing, id: nat, acked: set<nat>)
    requires Accounted(t) && HeldUntil(t, acked) && id in t.traces
    ensures HeldUntil(Put(t, id), acked) && HeldUntil(DropHolder(t, id), acked)
  {
  }

  lemma ThroughHolds(t: Tracing, w: Write, acked: set<nat>)
    requires Accounted(t) && HeldUntil(t, acked)
    ensures HeldUntil(LetThrough(t, w), acked)
  {
    assert t.writes !in t.released && t.writes !in t.direct;
  }

  lemma AcknowledgeHolds(s: State, id: nat, handed: seq<nat>, acked: set<nat>)
    requires Queued(s.t, handed) && HeldUntil(s.t, acked) && Enabled(s, Acknowledge(id))
    ensures HeldUntil(Next(s, Acknowledge(id)).t, acked + {id})
  {
    assert id in s.t.held.Keys;
  }

  lemma SameHolds(t: Tracing, t': Tracing, acked: set<nat>)
    requires HeldUntil(t, acked) && t'.held == t.held && t'.released == t.released && t'.direct == t.direct
    ensures HeldUntil(t', acked)
  {
  }

  lemma StepHolds(s: State, step: Step, handed: seq<nat>, acked: set<nat>)
    requires Inv(s.t) && Queued(s.t, handed) && HeldUntil(s.t, acked) && Enabled(s, step)
    ensures HeldUntil(Next(s, step).t, acked + Settles(step))
  {
    assert acked + {} == acked;
    match step
    case PassWrite(w) => ThroughHolds(s.t, w, acked);
    case AbortTrace(id) => PutHolds(s.t, id, acked);
    case FinishTrace(id) => PutHolds(s.t, id, acked);
    case CompleteClone(c, _) => PutHolds(RemoveClone(s.t, c), s.t.clones[c].owner, acked);
    case Acknowledge(id) => AcknowledgeHolds(s, id, handed, acked);
    case CowThread(outcome) =>
      HandlingLeavesTracing(s.(cowQ := DelayRead.Rest(s.cowQ)), s.cowQ[DelayRead.Picked(s.cowQ)], outcome);
    case _ => SameHolds(s.t, Next(s, step).t, acked);
  }

  lemma {:induction false} HeldUntilAcknowledged(run: Run)
    requires run.Valid()
    ensures HeldUntil(run.Final().t, Acknowledged(run))
  {
    match run
    case Start(_) =>
    case Then(prev, step) =>
      TracingRun(prev);
      HandedOnInOrder(prev);
      HeldUntilAcknowledged(prev);
      if Enabled(prev.Final(), step) {
        StepHolds(prev.Final(), step, HandedOn(prev), Acknowledged(prev));
      } else {
        assert Acknowledged(run) == Acknowledged(prev);
      }
  }

  // ---------------------------------------------------------------- what lands

  /** A word that the device writes for a held write is the payload of the write
      intercepted under that number, at the word's own place. */
  lemma LandsInterceptedWord(run: Run, id: nat, word: nat)
    requires run.Valid() && Enabled(run.Final(), Land(id, word))
    ensures id < |Intercepted(run)|
    ensures var s, w := run.Final(), Intercepted(run)[id];
            && Writes(w, word) && word < |s.base|
            && Next(s, Land(id, word)).base == s.base[word := w.payload[word - w.sector * 64]]
  {
    WritesUnchanged(run);
    LandIsPayload(run.Final(), id, word, Intercepted(run));
  }

  lemma LandIsPayload(s: State, id: nat, word: nat, ws: seq<Write>)
    requires Unchanged(s.t, ws) && Enabled(s, Land(id, word))
    ensures id < |ws| && Writes(ws[id], word) && word < |s.base|
    ensures Next(s, Land(id, word)).base == s.base[word := ws[id].payload[word - ws[id].sector * 64]]
  {
  }

  /** Word `word` of the device is what this write put there. */
  predicate WrittenBy(ws: seq<Write>, id: nat, word: nat, value: Word) {
    id < |ws| && Writes(ws[id], word) && value == ws[id].payload[word - ws[id].sector * 64]
  }

  ghost predicate Written(ws: seq<Write>, word: nat, value: Word) {
    exists id: nat :: WrittenBy(ws, id, word, value)
  }

  ghost predicate Originates(s: State, ws: seq<Write>) {
    && |s.base| == |s.snap|
    && forall word: nat :: word < |s.base| ==>
         s.base[word] == s.snap[word] || word / 512 in s.untraced || Written(ws, word, s.base[word])
  }

  lemma MoreWrites(s: State, s': State, ws: seq<Write>, more: seq<Write>)
    requires Originates(s, ws) && s'.base == s.base && s'.snap == s.snap && s.untraced <= s'.untraced
    ensures Originates(s', ws + more)
  {
    forall word: nat | word < |s.base| && Written(ws, word, s.base[word])
      ensures Written(ws + more, word, s.base[word])
    {
      var id: nat :| WrittenBy(ws, id, word, s.base[word]);
      assert WrittenBy(ws + more, id, word, s.base[word]);
    }
  }

  lemma BaseStays(s: State, step: Step)
    requires !step.Land? && !step.Stray?
    ensures Next(s, step).base == s.base && Next(s, step).snap == s.snap && s.untraced <= Next(s, step).untraced
  {
  }

  lemma LandOriginates(s: State, id: nat, word: nat, ws: seq<Write>)
    requires Originates(s, ws) && Unchanged(s.t, ws) && Enabled(s, Land(id, word))
    ensures Originates(Next(s, Land(id, word)), ws)
  {
    LandIsPayload(s, id, word, ws);
    var s' := Next(s, Land(id, word));
    assert WrittenBy(ws, id, word, s'.base[word]);
  }

  lemma StrayOriginates(s: State, word: nat, value: Word, ws: seq<Write>)
    requires Originates(s, ws) && Enabled(s, Stray(word, value))
    ensures Originates(Next(s, Stray(word, value)), ws)
  {
  }

  lemma StepOriginates(s: State, step: Step, ws: seq<Write>)
    requires Originates(s, ws) && Unchanged(s.t, ws) && Enabled(s, step)
    ensures Originates(Next(s, step), ws + Arrives(step))
  {
    assert ws + [] == ws;
    match step
    case Land(id, word) => LandOriginates(s, id, word, ws);
    case Stray(word, value) => StrayOriginates(s, word, value, ws);
    case _ =>
      BaseStays(s, step);
      MoreWrites(s, Next(s, step), ws, Arrives(step));
  }

  /** Every word of the live device comes from the snapshot, from a write behind the
      tracer's back, or from the same place of an intercepted write's payload. */
  lemma {:induction false} LiveWordsOriginate(run: Run)
    requires run.Valid()
    ensures Originates(run.Final(), Intercepted(run))
  {
    match run
    case Start(_) =>
    case Then(prev, step) =>
      LiveWordsOriginate(prev);
      WritesUnchanged(prev);
      var s, ws := prev.Final(), Intercepted(prev);
      if !Enabled(s, step) {
        assert Intercepted(run) == ws;
      } else {
        StepOriginates(s, step, ws);
      }
  }

  /** History: the blocks that writes behind the tracer's back touched. */
  function StrayBlocks(run: Run): set<nat>
    requires run.Valid()
  {
    match run
    case Start(_) => {}
    case Then(prev, step) => StrayBlocks(prev) + if Enabled(prev.Final(), step) then Strays(step) else {}
  }

  function Strays(step: Step): set<nat> {
    if step.Stray? then {step.word / 512} else {}
  }

  lemma StepStrays(s: State, step: Step)
    ensures Next(s, step).untraced == s.untraced + if Enabled(s, step) then Strays(step) else {}
  {
  }

  /** What snapshot isolation leaves out is exactly what such writes touched. */
  lemma {:induction false} UntracedExactly(run: Run)
    requires run.Valid()
    ensures run.Final().untraced == StrayBlocks(run)
  {
    match run
    case Start(_) =>
    case Then(prev, step) =>
      UntracedExactly(prev);
      StepStrays(prev.Final(), step);
  }

  /** The fate of an intercepted write, in every run, failures included: exactly one
      of these. It is being traced, as it was intercepted; it was let go, as it was
      intercepted, and waits for the release thread or is with the device; or the
      device has acknowledged it. The release thread hands writes on in the order of
      their release. */
  lemma WriteKeptWhole(run: Run, id: nat)
    requires run.Valid() && id < run.Final().t.writes
    ensures |Intercepted(run)| == run.Final().t.writes
    ensures var t, w, acked := run.Final().t, Intercepted(run)[id], Acknowledged(run);
            && (id in t.traces <==> id !in t.held && id !in acked) && !(id in t.held && id in acked)
            && (id in t.traces ==> t.traces[id].write == w)
            && (id in t.held ==> t.held[id] == w && (id in t.origQ || id in t.landing))
            && t.released == HandedOn(run) + t.origQ
  {
    TracingRun(run);
    WritesUnchanged(run);
    HandedOnInOrder(run);
    HeldUntilAcknowledged(run);
    OneFate(run.Final().t, HandedOn(run), Acknowledged(run), id);
  }

  lemma OneFate(t: Tracing, handed: seq<nat>, acked: set<nat>, id: nat)
    requires Accounted(t) && Queued(t, handed) && HeldUntil(t, acked) && id < t.writes
    ensures (id in t.traces <==> id !in t.held && id !in acked) && !(id in t.held && id in acked)
    ensures id in t.held ==> id in t.origQ || id in t.landing
  {
    if id in t.held { assert id in t.held.Keys; }
  }
}
