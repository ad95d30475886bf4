/** The tracing parameters of intercepted writes: their reference counts, the
    read clones that hold them, and the release of the original writes. */
module Tracker {
  import opened Blocks

  datatype Write = Write(sector: nat, sectors: nat, payload: seq<Word>)

  /** One intercepted write being traced. Its clones tile [first, end); those of
      [first, next) exist. `holder` is the tracing function's own reference. */
  datatype Trace = Trace(write: Write, first: nat, next: nat, end: nat, holder: bool, refs: nat)

  /** A read clone between its creation and its completion callback. */
  datatype Clone = Clone(owner: nat, first: nat, end: nat, sent: bool, got: map<nat, Page>)

  datatype Tracing = Tracing(
    traces: map<nat, Trace>,
    clones: map<nat, Clone>,
    readQ: seq<nat>,        // clones not yet submitted
    origQ: seq<nat>,        // released writes not yet submitted
    held: map<nat, Write>,  // released and let-through writes, until acknowledged
    landing: set<nat>,      // held writes the device is executing
    writes: nat,            // intercepted writes so far
    made: nat,              // clones made so far
    released: seq<nat>,     // history: writes put on the release queue
    direct: set<nat>        // history: writes let straight through
  )

  const IDLE := Tracing(map[], map[], [], [], map[], {}, 0, 0, [], {})

  function Begin(t: Tracing, w: Write): Tracing {
    var first := FirstBlock(w.sector);
    t.(traces := t.traces[t.writes := Trace(w, first, first, EndBlock(w.sector, w.sectors), true, 1)],
       writes := t.writes + 1)
  }

  function LetThrough(t: Tracing, w: Write): Tracing {
    t.(writes := t.writes + 1, direct := t.direct + {t.writes},
       held := t.held[t.writes := w], landing := t.landing + {t.writes})
  }

  /** A clone takes its reference when it is made. */
  function Issue(t: Tracing, id: nat, pages: nat): Tracing
    requires id in t.traces
  {
    var tr := t.traces[id];
    t.(traces := t.traces[id := tr.(next := tr.next + pages, refs := tr.refs + 1)],
       clones := t.clones[t.made := Clone(id, tr.next, tr.next + pages, false, map[])],
       readQ := t.readQ + [t.made], made := t.made + 1)
  }

  function Submit(t: Tracing): Tracing
    requires t.readQ != []
  {
    var c := t.readQ[0];
    var t' := t.(readQ := t.readQ[1..]);
    if c in t.clones then t'.(clones := t.clones[c := t.clones[c].(sent := true)]) else t'
  }

  function Capture(t: Tracing, c: nat, block: nat, page: Page): Tracing
    requires c in t.clones
  {
    t.(clones := t.clones[c := t.clones[c].(got := t.clones[c].got[block := page])])
  }

  /** Dropping the last reference puts the original write on the release queue. */
  function Put(t: Tracing, id: nat): Tracing
    requires id in t.traces
  {
    var tr := t.traces[id];
    if tr.refs <= 1 then
      t.(traces := t.traces - {id}, held := t.held[id := tr.write],
         origQ := t.origQ + [id], released := t.released + [id])
    else
      t.(traces := t.traces[id := tr.(refs := tr.refs - 1)])
  }

  function DropHolder(t: Tracing, id: nat): Tracing
    requires id in t.traces
  {
    Put(t.(traces := t.traces[id := t.traces[id].(holder := false)]), id)
  }

  function RemoveClone(t: Tracing, c: nat): Tracing {
    t.(clones := t.clones - {c})
  }

  function Complete(t: Tracing, c: nat): Tracing
    requires c in t.clones && t.clones[c].owner in t.traces
  {
    Put(RemoveClone(t, c), t.clones[c].owner)
  }

  // ---------------------------------------------------------------- invariants

  function ClonesOf(t: Tracing, id: nat): set<nat> {
    set c | c in t.clones && t.clones[c].owner == id
  }

  function HolderRefs(tr: Trace): nat { if tr.holder then 1 else 0 }

  predicate OkTrace(t: Tracing, id: nat, extra: nat)
    requires id in t.traces
  {
    var tr := t.traces[id];
    && id < t.writes
    && tr.first <= tr.next <= tr.end
    && tr.refs > 0
    && tr.refs == HolderRefs(tr) + |ClonesOf(t, id)| + extra
  }

  predicate OkClone(t: Tracing, c: nat)
    requires c in t.clones
  {
    var clone := t.clones[c];
    && c < t.made
    && clone.owner in t.traces
    && t.traces[clone.owner].first <= clone.first < clone.end <= t.traces[clone.owner].next
  }

  predicate OkTraces(t: Tracing) {
    forall id :: id in t.traces ==> OkTrace(t, id, 0)
  }

  predicate OkClones(t: Tracing) {
    forall c :: c in t.clones ==> OkClone(t, c)
  }

  predicate Distinct(ids: seq<nat>) {
    forall i, j :: 0 <= i < j < |ids| ==> ids[i] != ids[j]
  }

  /** Every intercepted write is live, released or let through, and only one. */
  ghost predicate Accounted(t: Tracing) {
    && Distinct(t.released)
    && (forall id: nat :: id < t.writes <==> id in t.traces || id in t.released || id in t.direct)
    && (forall id :: id in t.traces ==> id !in t.released && id !in t.direct)
    && (forall id :: id in t.direct ==> id !in t.released)
  }

  ghost predicate Inv(t: Tracing) {
    OkTraces(t) && OkClones(t) && Accounted(t)
  }

  lemma PutKeeps(t: Tracing, id: nat)
    requires OkClones(t) && Accounted(t) && id in t.traces
    requires forall i :: i in t.traces ==> OkTrace(t, i, if i == id then 1 else 0)
    ensures Inv(Put(t, id))
  {
    var t' := Put(t, id);
    assert OkTrace(t, id, 1);
    forall i | i in t'.traces
      ensures OkTrace(t', i, 0)
    {
      assert ClonesOf(t', i) == ClonesOf(t, i);
      assert OkTrace(t, i, if i == id then 1 else 0);
    }
    forall c | c in t'.clones
      ensures OkClone(t', c)
    {
      assert OkClone(t, c);
      if t.clones[c].owner == id { assert c in ClonesOf(t, id); }
    }
  }

  lemma DropHolderKeeps(t: Tracing, id: nat)
    requires Inv(t) && id in t.traces && t.traces[id].holder
    ensures Inv(DropHolder(t, id))
  {
    var mid := t.(traces := t.traces[id := t.traces[id].(holder := false)]);
    forall i | i in mid.traces
      ensures OkTrace(mid, i, if i == id then 1 else 0)
    {
      assert ClonesOf(mid, i) == ClonesOf(t, i);
      assert OkTrace(t, i, 0);
    }
    forall c | c in mid.clones
      ensures OkClone(mid, c)
    {
      assert OkClone(t, c);
    }
    PutKeeps(mid, id);
  }

  lemma CompleteKeeps(t: Tracing, c: nat)
    requires Inv(t) && c in t.clones
    ensures t.clones[c].owner in t.traces && Inv(Complete(t, c))
  {
    var id := t.clones[c].owner;
    assert OkClone(t, c);
    var mid := RemoveClone(t, c);
    forall i | i in mid.traces
      ensures OkTrace(mid, i, if i == id then 1 else 0)
    {
      assert OkTrace(t, i, 0);
      if i == id {
        assert c in ClonesOf(t, i) && ClonesOf(mid, i) == ClonesOf(t, i) - {c};
      } else {
        assert ClonesOf(mid, i) == ClonesOf(t, i);
      }
    }
    forall d | d in mid.clones
      ensures OkClone(mid, d)
    {
      assert OkClone(t, d);
    }
    PutKeeps(mid, id);
  }

  lemma FreshClone(t: Tracing)
    requires OkClones(t)
    ensures t.made !in t.clones
  {
    assert t.made in t.clones ==> OkClone(t, t.made);
  }

  lemma IssueCounts(t: Tracing, id: nat, pages: nat)
    requires OkTraces(t) && t.made !in t.clones
    requires id in t.traces && pages <= t.traces[id].end - t.traces[id].next
    ensures OkTraces(Issue(t, id, pages))
  {
    var t' := Issue(t, id, pages);
    assert ClonesOf(t', id) == ClonesOf(t, id) + {t.made};
    assert t.made !in ClonesOf(t, id);
    forall i | i in t'.traces
      ensures OkTrace(t', i, 0)
    {
      assert OkTrace(t, i, 0);
      assert i != id ==> ClonesOf(t', i) == ClonesOf(t, i);
    }
  }

  lemma IssueKeeps(t: Tracing, id: nat, pages: nat)
    requires Inv(t) && id in t.traces && 0 < pages <= t.traces[id].end - t.traces[id].next
    ensures t.made !in t.clones && Inv(Issue(t, id, pages))
  {
    FreshClone(t);
    IssueCounts(t, id, pages);
    var t' := Issue(t, id, pages);
    assert OkTrace(t, id, 0);
    forall c | c in t'.clones
      ensures OkClone(t', c)
    {
      assert c != t.made ==> OkClone(t, c);
    }
  }

  lemma NoClonesYet(t: Tracing, id: nat)
    requires OkClones(t) && id !in t.traces
    ensures ClonesOf(t, id) == {}
  {
    assert forall c :: c in t.clones ==> OkClone(t, c);
  }

  lemma BeginKeeps(t: Tracing, w: Write)
    requires Inv(t) && w.sectors > 0
    ensures Inv(Begin(t, w))
  {
    var t' := Begin(t, w);
    NoClonesYet(t, t.writes);
    forall i | i in t'.traces
      ensures OkTrace(t', i, 0)
    {
      assert ClonesOf(t', i) == ClonesOf(t, i);
      assert i != t.writes ==> OkTrace(t, i, 0);
    }
    forall c | c in t'.clones
      ensures OkClone(t', c)
    {
      assert OkClone(t, c);
    }
  }

  /** Steps that leave the write accounting and the clone extents alone. */
  lemma FrameKeeps(t: Tracing, t': Tracing)
    requires Inv(t)
    requires t'.traces == t.traces && t'.writes == t.writes && t'.made == t.made
    requires t'.released == t.released && t'.direct == t.direct
    requires t'.clones.Keys == t.clones.Keys
    requires forall c :: c in t.clones ==>
               && t'.clones[c].owner == t.clones[c].owner
               && t'.clones[c].first == t.clones[c].first && t'.clones[c].end == t.clones[c].end
    ensures Inv(t')
  {
    forall i | i in t'.traces
      ensures OkTrace(t', i, 0)
    {
      assert ClonesOf(t', i) == ClonesOf(t, i);
      assert OkTrace(t, i, 0);
    }
    forall c | c in t'.clones
      ensures OkClone(t', c)
    {
      assert OkClone(t, c);
    }
  }

  lemma ThroughKeeps(t: Tracing, w: Write)
    requires Inv(t)
    ensures Inv(LetThrough(t, w))
  {
    var t' := LetThrough(t, w);
    forall i | i in t'.traces
      ensures OkTrace(t', i, 0)
    {
      assert ClonesOf(t', i) == ClonesOf(t, i);
      assert OkTrace(t, i, 0);
    }
    forall c | c in t'.clones
      ensures OkClone(t', c)
    {
      assert OkClone(t, c);
    }
  }

  function Occurrences(ids: seq<nat>, id: nat): nat {
    if ids == [] then 0 else (if ids[0] == id then 1 else 0) + Occurrences(ids[1..], id)
  }

  lemma {:induction false} DistinctOccurrences(ids: seq<nat>, id: nat)
    requires Distinct(ids)
    ensures Occurrences(ids, id) == if id in ids then 1 else 0
  {
    if ids != [] {
      assert id in ids <==> id == ids[0] || id in ids[1..];
      DistinctOccurrences(ids[1..], id);
    }
  }
}
