/** Incremental mode: which sectors, and so which blocks, of a write are reported
    as changed. */
module IncTracing {
  import opened Blocks

  /** A segment of a write, in sectors; `cow` if its page belongs to the cow file. */
  datatype Segment = Segment(sectors: nat, cow: bool)

  /** Changed sectors, relative to the start of the device. */
  datatype SectorSet = SectorSet(sect: nat, len: nat)

  function Length(segs: seq<Segment>): nat {
    if segs == [] then 0 else Length(segs[..|segs| - 1]) + segs[|segs| - 1].sectors
  }

  /** Sector t, with the write starting at `from`, lies in a segment that is not
      the cow file's. */
  predicate Foreign(segs: seq<Segment>, from: nat, t: nat) {
    segs != [] &&
    var init, last := segs[..|segs| - 1], segs[|segs| - 1];
    Foreign(init, from, t) || (!last.cow && from + Length(init) <= t < from + Length(init) + last.sectors)
  }

  predicate Contains(s: SectorSet, t: nat) {
    s.sect <= t < s.sect + s.len
  }

  predicate Reported(ssets: seq<SectorSet>, t: nat) {
    exists i :: 0 <= i < |ssets| && Contains(ssets[i], t)
  }

  predicate NoEmpty(ssets: seq<SectorSet>) {
    forall i :: 0 <= i < |ssets| ==> ssets[i].len > 0
  }

  lemma ReportMore(ssets: seq<SectorSet>, s: SectorSet, t: nat)
    ensures Reported(ssets + [s], t) <==> Reported(ssets, t) || Contains(s, t)
  {
    var more := ssets + [s];
    assert more[|ssets|] == s;
    if Reported(ssets, t) {
      var i :| 0 <= i < |ssets| && Contains(ssets[i], t);
      assert more[i] == ssets[i];
    }
  }

  predicate InRun(open: bool, start: nat, end: nat, t: nat) { open && start <= t < end }

  /** Sectors reported so far, with the run that is still growing. */
  ghost predicate Collected(ssets: seq<SectorSet>, open: bool, start: nat, end: nat, segs: seq<Segment>, from: nat) {
    && NoEmpty(ssets)
    && (open ==> start <= end)
    && (forall t: nat :: Reported(ssets, t) || InRun(open, start, end, t) <==> Foreign(segs, from, t))
  }

  /** A set for a run of changed sectors; nothing if memory runs out. */
  method MakeSset(ssets: seq<SectorSet>, sect: nat, len: nat, plenty: bool) returns (ok: bool, more: seq<SectorSet>)
    ensures plenty ==> ok
    ensures more == if ok then ssets + [SectorSet(sect, len)] else ssets
  {
    ok, more := *, ssets;
    ok := ok || plenty;
    if ok { more := ssets + [SectorSet(sect, len)]; }
  }

  lemma RunReported(ssets: seq<SectorSet>, start: nat, end: nat, segs: seq<Segment>, from: nat)
    requires start <= end && Collected(ssets, true, start, end, segs, from)
    ensures start < end ==> Collected(ssets + [SectorSet(start, end - start)], false, 0, end, segs, from)
    ensures start == end ==> Collected(ssets, false, 0, end, segs, from)
  {
    if start < end {
      forall t: nat
        ensures Reported(ssets + [SectorSet(start, end - start)], t) <==> Foreign(segs, from, t)
      {
        ReportMore(ssets, SectorSet(start, end - start), t);
      }
    }
  }

  /** A foreign segment extends the run or starts one; a cow-file one, with no
      run open, adds nothing. */
  lemma NextSegment(ssets: seq<SectorSet>, open: bool, start: nat, end: nat, segs: seq<Segment>, i: nat, from: nat)
    requires i < |segs| && end == from + Length(segs[..i])
    requires Collected(ssets, open, start, end, segs[..i], from)
    ensures Length(segs[..i + 1]) == Length(segs[..i]) + segs[i].sectors
    ensures !segs[i].cow ==>
      Collected(ssets, true, if open then start else end, end + segs[i].sectors, segs[..i + 1], from)
    ensures segs[i].cow && !open ==> Collected(ssets, false, 0, end + segs[i].sectors, segs[..i + 1], from)
  {
    var more := segs[..i + 1];
    assert more[..|more| - 1] == segs[..i] && more[|more| - 1] == segs[i];
    forall t: nat
      ensures Foreign(more, from, t) <==>
                Foreign(segs[..i], from, t) || InRun(!segs[i].cow, end, end + segs[i].sectors, t)
      ensures Reported(ssets, t) || InRun(open, start, end, t) <==> Foreign(segs[..i], from, t)
    {
    }
    var start' := if open then start else end;
    assert forall t: nat :: InRun(open, start, end, t) || InRun(true, end, end + segs[i].sectors, t)
                            <==> InRun(true, start', end + segs[i].sectors, t);
  }

  /** Reports the sectors of a write, run by run of segments that are not the cow
      file's; a write of zeroes has no segments and is reported whole. Sectors
      are reported exactly, unless memory runs out, which fails the device. */
  method IncTraceBio(sector: nat, off: nat, size: nat, zeroes: bool, segs: seq<Segment>, plenty: bool)
    returns (ssets: seq<SectorSet>, failed: bool)
    requires off <= sector && size > 0
    ensures plenty ==> !failed
    ensures !failed && zeroes ==> ssets == [SectorSet(sector - off, size)]
    ensures !failed && !zeroes ==>
      NoEmpty(ssets) && forall t: nat :: Reported(ssets, t) <==> Foreign(segs, sector - off, t)
  {
    ssets := [];
    var ok := true;
    if zeroes {
      ok, ssets := MakeSset(ssets, sector - off, size, plenty);
      return ssets, !ok;
    }
    var open, start, end := false, 0, sector;
    for i := 0 to |segs|
      invariant end == sector + Length(segs[..i]) && (open ==> off <= start)
      invariant Collected(ssets, open, if open then start - off else 0, end - off, segs[..i], sector - off)
    {
      if !segs[i].cow {
        NextSegment(ssets, open, if open then start - off else 0, end - off, segs, i, sector - off);
        if !open {
          open := true;
          start := end;
        }
      } else {
        if open {
          RunReported(ssets, start - off, end - off, segs[..i], sector - off);
          if end - start > 0 {
            ok, ssets := MakeSset(ssets, start - off, end - start, plenty);
            if !ok { return ssets, true; }
          }
        }
        open := false;
        NextSegment(ssets, open, 0, end - off, segs, i, sector - off);
      }
      end := end + segs[i].sectors;
    }
    assert segs[..|segs|] == segs;
    if open {
      RunReported(ssets, start - off, end - off, segs, sector - off);
      if end - start > 0 {
        ok, ssets := MakeSset(ssets, start - off, end - start, plenty);
      }
    }
    failed := !ok;
  }

  // ------------------------------------------------------------------- blocks

  predicate BlockReported(ssets: seq<SectorSet>, b: nat) {
    exists i :: 0 <= i < |ssets| && Touches(ssets[i].sect, ssets[i].len, b)
  }

  predicate InBlock(t: nat, b: nat) { t / 8 == b }

  ghost predicate ForeignBlock(segs: seq<Segment>, from: nat, b: nat) {
    exists t: nat :: Foreign(segs, from, t) && InBlock(t, b)
  }

  lemma SectorOfTouched(s: SectorSet, b: nat) returns (t: nat)
    requires s.len > 0 && Touches(s.sect, s.len, b)
    ensures Contains(s, t) && InBlock(t, b)
  {
    t := if s.sect / 8 == b then s.sect else b * 8;
  }

  /** The blocks handed to the index are exactly those with a reported sector. */
  lemma BlocksReportedExactly(ssets: seq<SectorSet>, segs: seq<Segment>, from: nat, b: nat)
    requires NoEmpty(ssets) && forall t: nat :: Reported(ssets, t) <==> Foreign(segs, from, t)
    ensures BlockReported(ssets, b) <==> ForeignBlock(segs, from, b)
  {
    if BlockReported(ssets, b) {
      var i :| 0 <= i < |ssets| && Touches(ssets[i].sect, ssets[i].len, b);
      var t := SectorOfTouched(ssets[i], b);
      assert Reported(ssets, t);
    }
    if ForeignBlock(segs, from, b) {
      var t: nat :| Foreign(segs, from, t) && InBlock(t, b);
      assert Reported(ssets, t);
      var i :| 0 <= i < |ssets| && Contains(ssets[i], t);
      assert Touches(ssets[i].sect, ssets[i].len, b);
    }
  }

  lemma {:induction false} ForeignInside(segs: seq<Segment>, from: nat, t: nat)
    requires Foreign(segs, from, t)
    ensures from <= t < from + Length(segs)
  {
    var init := segs[..|segs| - 1];
    if Foreign(init, from, t) { ForeignInside(init, from, t); }
  }

  /** On a device of whole blocks, all reported sets of a write inside the device
      lie inside an index sized for it: those of its segments, and the one set of
      a write of zeroes. */
  lemma ReportedSetsFit(ssets: seq<SectorSet>, zeroes: bool, segs: seq<Segment>, from: nat, size: nat,
                        deviceSectors: nat, capacity: nat, i: nat)
    requires deviceSectors % 8 == 0 && deviceSectors / 8 <= capacity && from + size <= deviceSectors
    requires zeroes ==> ssets == [SectorSet(from, size)]
    requires !zeroes ==>
      && Length(segs) == size && NoEmpty(ssets)
      && forall t: nat :: Reported(ssets, t) <==> Foreign(segs, from, t)
    requires i < |ssets|
    ensures EndBlock(ssets[i].sect, ssets[i].len) <= capacity
  {
    if !zeroes {
      var last := ssets[i].sect + ssets[i].len - 1;
      assert Contains(ssets[i], last);
      assert Reported(ssets, last);
      ForeignInside(segs, from, last);
    }
  }

  /** What a traced write changes, block by block. */
  ghost predicate ChangesBlock(zeroes: bool, segs: seq<Segment>, from: nat, size: nat, b: nat) {
    if zeroes then Touches(from, size, b) else ForeignBlock(segs, from, b)
  }

  lemma ReportedIsChanged(ssets: seq<SectorSet>, zeroes: bool, segs: seq<Segment>, from: nat, size: nat, b: nat)
    requires zeroes ==> ssets == [SectorSet(from, size)]
    requires !zeroes ==> NoEmpty(ssets) && forall t: nat :: Reported(ssets, t) <==> Foreign(segs, from, t)
    ensures BlockReported(ssets, b) <==> ChangesBlock(zeroes, segs, from, size, b)
  {
    if zeroes {
      assert ssets[0] == SectorSet(from, size);
    } else {
      BlocksReportedExactly(ssets, segs, from, b);
    }
  }
}
