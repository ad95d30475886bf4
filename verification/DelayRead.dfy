/** What the copy-on-write queue's read-delaying dequeue returns and leaves
    behind, and what repeated dequeues do to a whole queue. */
module DelayRead {
  import opened Blocks

  /** The driver's test also holds for adjacent requests. */
  predicate Overlap(a: Bio, b: Bio) {
    Max(a.sector, b.sector) <= Min(a.sector + a.sectors, b.sector + b.sectors)
  }

  predicate HasSector(a: Bio, s: nat) {
    a.sector <= s < a.sector + a.sectors
  }

  ghost predicate SharesSector(a: Bio, b: Bio) {
    exists s :: HasSector(a, s) && HasSector(b, s)
  }

  /** Index of the first write of `q` that overlaps `read`, or |q|. */
  function FirstOverlap(read: Bio, q: seq<Bio>): (k: nat)
    ensures k <= |q|
    ensures k < |q| ==> q[k].write && Overlap(read, q[k])
    ensures forall i :: 0 <= i < k ==> !(q[i].write && Overlap(read, q[i]))
  {
    if q == [] || (q[0].write && Overlap(read, q[0])) then 0 else 1 + FirstOverlap(read, q[1..])
  }

  /** Position in `q` of the entry that the next dequeue returns. */
  function Picked(q: seq<Bio>): (k: nat)
    requires q != []
    ensures k < |q|
    ensures q[0].write ==> k == 0
    ensures k > 0 ==> q[k].write && Overlap(q[0], q[k])
    ensures !q[0].write && k == 0 ==> forall i :: 1 <= i < |q| ==> !(q[i].write && Overlap(q[0], q[i]))
    ensures !q[0].write ==> forall i :: 1 <= i < k ==> !(q[i].write && Overlap(q[0], q[i]))
  {
    if q[0].write then 0
    else
      var k := FirstOverlap(q[0], q[1..]);
      if k == |q| - 1 then 0 else k + 1
  }

  /** The delayed read takes the place of the write that overtakes it. */
  function Rest(q: seq<Bio>): (rest: seq<Bio>)
    requires q != []
    ensures |rest| == |q| - 1
  {
    var k := Picked(q);
    if k == 0 then q[1..] else q[1..k] + [q[0]] + q[k + 1..]
  }

  lemma Cut<T>(q: seq<T>, k: nat)
    requires 0 < k < |q|
    ensures q == [q[0]] + q[1..k] + [q[k]] + q[k + 1..]
  {
  }

  lemma TakeOut<T>(x: T, a: seq<T>, y: T, b: seq<T>)
    ensures multiset([x] + a + [y] + b) == multiset(a + [x] + b) + multiset{y}
  {
  }

  lemma DequeueLosesNothing(q: seq<Bio>)
    requires q != []
    ensures multiset(q) == multiset(Rest(q)) + multiset{q[Picked(q)]}
  {
    var k := Picked(q);
    if k == 0 {
      assert q == [q[0]] + q[1..];
    } else {
      Cut(q, k);
      TakeOut(q[0], q[1..k], q[k], q[k + 1..]);
    }
  }

  /** The queue emptied by repeated dequeues with nothing added. */
  function Drain(q: seq<Bio>): (out: seq<Bio>)
    ensures |out| == |q|
    decreases |q|
  {
    if q == [] then [] else [q[Picked(q)]] + Drain(Rest(q))
  }

  /** Nothing is lost or repeated by draining. */
  lemma {:induction false} DrainReturnsEverything(q: seq<Bio>)
    ensures multiset(Drain(q)) == multiset(q)
    decreases |q|
  {
    if q != [] {
      DequeueLosesNothing(q);
      DrainReturnsEverything(Rest(q));
      assert Drain(q) == [q[Picked(q)]] + Drain(Rest(q));
    }
  }

  /** A request that a dequeue returns as a read has no queued write that
      overlaps it, and so none that shares a sector with it. */
  lemma ReturnedReadIsClear(q: seq<Bio>, i: nat)
    requires q != [] && i < |q| && !q[Picked(q)].write && q[i].write
    ensures Picked(q) == 0 && i > 0
    ensures !Overlap(q[Picked(q)], q[i]) && !SharesSector(q[Picked(q)], q[i])
  {
    assert Picked(q) == 0 && i > 0;
    assert !Overlap(q[0], q[i]);
  }

  lemma DrainedWasQueued(q: seq<Bio>, j: nat) returns (at: nat)
    requires j < |q|
    ensures at < |q| && q[at] == Drain(q)[j]
  {
    DrainReturnsEverything(q);
    assert Drain(q)[j] in multiset(Drain(q));
    at :| 0 <= at < |q| && q[at] == Drain(q)[j];
  }

  /** No read comes out before a write that overlaps it. */
  ghost predicate ReadsDelayed(out: seq<Bio>) {
    forall i, j :: 0 <= i < j < |out| && !out[i].write && out[j].write ==> !Overlap(out[i], out[j])
  }

  lemma DelayedCons(bio: Bio, tail: seq<Bio>)
    requires ReadsDelayed(tail)
    requires forall j :: 0 <= j < |tail| && !bio.write && tail[j].write ==> !Overlap(bio, tail[j])
    ensures ReadsDelayed([bio] + tail)
  {
  }

  lemma FirstOutIsClear(q: seq<Bio>, j: nat)
    requires j + 1 < |q| && !q[Picked(q)].write && Drain(Rest(q))[j].write
    ensures !Overlap(q[Picked(q)], Drain(Rest(q))[j])
  {
    var at := DrainedWasQueued(Rest(q), j);
    ReturnedReadIsClear(q, at + 1);
  }

  /** Over a whole drain, every read comes out after every write queued with it,
      before or behind, that overlaps it. */
  lemma {:induction false} DrainDelaysReads(q: seq<Bio>)
    ensures ReadsDelayed(Drain(q))
    decreases |q|
  {
    if q != [] {
      var bio, tail := q[Picked(q)], Drain(Rest(q));
      DrainDelaysReads(Rest(q));
      forall j | 0 <= j < |tail| && !bio.write && tail[j].write
        ensures !Overlap(bio, tail[j])
      {
        FirstOutIsClear(q, j);
      }
      DelayedCons(bio, tail);
    }
  }

  predicate Adjacent(a: Bio, b: Bio) {
    a.sector + a.sectors == b.sector || b.sector + b.sectors == a.sector
  }

  /** What the driver's test accepts: requests that share a sector, and also those
      that only touch. */
  lemma OverlapsExactly(a: Bio, b: Bio)
    requires a.sectors > 0 && b.sectors > 0
    ensures Overlap(a, b) <==> SharesSector(a, b) || Adjacent(a, b)
  {
    var s := Max(a.sector, b.sector);
    if Overlap(a, b) && !Adjacent(a, b) { assert HasSector(a, s) && HasSector(b, s); }
  }

  /** Everything but the delayed read keeps its order: cutting the read and the
      returned write out of the queue before and after leaves the same list. */
  lemma DequeueKeepsOrder(q: seq<Bio>)
    requires q != [] && Picked(q) > 0
    ensures var k := Picked(q);
            && Rest(q)[k - 1] == q[0]
            && Rest(q)[..k - 1] + Rest(q)[k..] == q[1..k] + q[k + 1..]
  {
  }

  /** Position of the first queued write that covers `block`, or |q|. */
  function FirstCover(q: seq<Bio>, block: nat): (k: nat)
    ensures k <= |q|
    ensures k < |q| ==> q[k].write && Covers(q[k], block)
    ensures forall i :: 0 <= i < k ==> !(q[i].write && Covers(q[i], block))
  {
    if q == [] || (q[0].write && Covers(q[0], block)) then 0 else 1 + FirstCover(q[1..], block)
  }

  /** The next dequeue returns a write that covers `block` although an earlier
      queued write covers it too. */
  predicate OvertakesAt(q: seq<Bio>, block: nat)
    requires q != []
  {
    var k := Picked(q);
    q[k].write && Covers(q[k], block) && FirstCover(q, block) < k
  }

  ghost predicate Overtakes(q: seq<Bio>, stored: set<nat>)
    requires q != []
  {
    exists block: nat :: block !in stored && OvertakesAt(q, block)
  }

  predicate WellFormedQueue(q: seq<Bio>) {
    forall i :: 0 <= i < |q| && q[i].write ==> WellFormedClone(q[i])
  }

  /** The pages the next dequeue would put in the store are, block by block, the
      pages of the first clone queued for the block. */
  ghost predicate StoresFirstPages(q: seq<Bio>, stored: set<nat>)
    requires q != [] && WellFormedQueue(q)
  {
    var k := Picked(q);
    q[k].write ==>
      forall block: nat | block !in stored && Covers(q[k], block) ::
        PageOf(q[k], block) == PageOf(q[FirstCover(q, block)], block)
  }

  /** Same requests, possibly with other captured contents. */
  predicate SameShape(q: seq<Bio>, q': seq<Bio>) {
    && |q| == |q'|
    && forall i :: 0 <= i < |q| ==> q[i] == q'[i].(pages := q[i].pages)
  }

  lemma {:induction false} ShapeDecides(q: seq<Bio>, q': seq<Bio>, block: nat)
    requires SameShape(q, q')
    ensures FirstCover(q, block) == FirstCover(q', block)
    ensures forall read: Bio :: FirstOverlap(read, q) == FirstOverlap(read, q')
  {
    if q != [] {
      assert SameShape(q[1..], q'[1..]);
      ShapeDecides(q[1..], q'[1..], block);
      assert q[0] == q'[0].(pages := q[0].pages);
    }
  }

  lemma ShapePicks(q: seq<Bio>, q': seq<Bio>)
    requires SameShape(q, q') && q != []
    ensures Picked(q) == Picked(q')
  {
    assert q[0] == q'[0].(pages := q[0].pages);
    var r, r' := q[0], q'[0];
    ShapeDecides(q[1..], q'[1..], 0);
    PagesDoNotMatter(r, r', q'[1..]);
  }

  lemma {:induction false} PagesDoNotMatter(r: Bio, r': Bio, q: seq<Bio>)
    requires r == r'.(pages := r.pages)
    ensures FirstOverlap(r, q) == FirstOverlap(r', q)
  {
    if q != [] { PagesDoNotMatter(r, r', q[1..]); }
  }

  /** Exactly when one dequeue is safe: whatever the queued clones captured, the
      block pages stored next are the first queued ones if and only if the
      returned write overtakes no earlier write on a block not yet stored. */
  lemma SafeExactlyWithoutOvertaking(q: seq<Bio>, stored: set<nat>)
    requires q != [] && WellFormedQueue(q)
    ensures (forall q': seq<Bio> | SameShape(q, q') && WellFormedQueue(q') :: StoresFirstPages(q', stored))
            <==> !Overtakes(q, stored)
  {
    if Overtakes(q, stored) {
      var block: nat :| block !in stored && OvertakesAt(q, block);
      SpoilOvertaken(q, stored, block);
    } else {
      forall q': seq<Bio> | SameShape(q, q') && WellFormedQueue(q')
        ensures StoresFirstPages(q', stored)
      {
        ShapePicks(q, q');
        var k := Picked(q);
        assert q[k] == q'[k].(pages := q[k].pages);
        forall block: nat | q'[k].write && block !in stored && Covers(q'[k], block)
          ensures PageOf(q'[k], block) == PageOf(q'[FirstCover(q', block)], block)
        {
          ShapeDecides(q, q', block);
          assert !OvertakesAt(q, block);
        }
      }
    }
  }

  /** Contents that make an overtaking dequeue store the wrong page. */
  lemma SpoilOvertaken(q: seq<Bio>, stored: set<nat>, block: nat)
    requires q != [] && WellFormedQueue(q)
    requires block !in stored && OvertakesAt(q, block)
    ensures exists q': seq<Bio> :: SameShape(q, q') && WellFormedQueue(q') && !StoresFirstPages(q', stored)
  {
    var k, f := Picked(q), FirstCover(q, block);
    assert WellFormedClone(q[k]) && WellFormedClone(q[f]);
    var at := block - FirstBlock(q[k].sector);
    var first := PageOf(q[f], block);
    var other := first[0 := first[0] + 1];
    var q' := q[k := q[k].(pages := q[k].pages[at := other])];
    assert WellFormedClone(q'[k]);
    assert SameShape(q, q');
    ShapePicks(q, q');
    ShapeDecides(q, q', block);
    assert PageOf(q'[k], block) == other && PageOf(q'[f], block) == first;
  }

  /** A condition on the requests alone under which no dequeue overtakes: queued
      clones that share a block have the same extent, as when every intercepted
      write stays inside one block. */
  lemma EqualExtentsNeverOvertake(q: seq<Bio>, stored: set<nat>)
    requires q != []
    requires forall i, j, b: nat | 0 <= i < |q| && 0 <= j < |q| && q[i].write && q[j].write
                                && Covers(q[i], b) && Covers(q[j], b) ::
               q[i].sector == q[j].sector && q[i].sectors == q[j].sectors
    ensures !Overtakes(q, stored)
  {
    var k := Picked(q);
    forall b: nat | q[k].write && Covers(q[k], b)
      ensures FirstCover(q, b) >= k
    {
    }
  }
}
