/** The copy-on-write file on disk. Reads and writes may fail; a write that
    succeeds is one step, and the history of steps is what a crash can expose. */
module CowDisk {
  import opened Blocks
  import opened CowImage

  /** What the manager was when it last closed the file properly. */
  datatype Saved = NeverClosed | Closed(header: Header, view: seq<Section>, image: Image)

  /** The file at one moment, with the last proper close before it. */
  datatype Moment = Moment(image: Image, saved: Saved)

  /** A crash at this moment is harmless: a file that a restart would accept is
      exactly the file of the last proper close, and reads back as its state. */
  predicate CrashSafe(m: Moment, sectSize: nat, total: nat) {
    CleanHeader(m.image) ==>
      && m.saved.Closed?
      && m.image == m.saved.image
      && HeaderOf(m.image) == m.saved.header
      && IndexOf(m.image, sectSize, total) == m.saved.view
  }

  class CowFile {
    const steady: bool // nothing fails around this file, and memory does not run out
    var image: Image
    var linked: bool
    ghost var trace: seq<Moment>

    ghost predicate Recorded()
      reads this
    {
      |trace| > 0 && trace[|trace| - 1].image == image
    }

    ghost predicate TraceSafe(sectSize: nat, total: nat)
      reads this
    {
      Recorded() && forall k :: 0 <= k < |trace| ==> CrashSafe(trace[k], sectSize, total)
    }

    /** A file created or truncated on open. */
    constructor (steady: bool)
      ensures this.steady == steady
      ensures image == map[] && linked && trace == [Moment(map[], NeverClosed)] && Recorded()
    {
      this.steady, image, linked := steady, map[], true;
      trace := [Moment(map[], NeverClosed)];
    }

    method Read(off: nat, n: nat) returns (ok: bool, ws: seq<Word>)
      ensures ok ==> ws == ReadWords(image, off, n)
      ensures steady ==> ok
    {
      ok := *;
      ok := ok || steady;
      ws := ReadWords(image, off, n);
    }

    method Write(off: nat, ws: seq<Word>, ghost saved: Saved) returns (ok: bool)
      modifies this`image, this`trace
      ensures image == if ok then WriteWords(old(image), off, ws) else old(image)
      ensures trace == if ok then old(trace) + [Moment(image, saved)] else old(trace)
      ensures steady ==> ok
    {
      ok := *;
      ok := ok || steady;
      if ok {
        image := WriteWords(image, off, ws);
        trace := trace + [Moment(image, saved)];
      }
    }

    /** Cutting a file to n words; what lies behind reads as zeros. */
    method Cut(n: nat, ghost saved: Saved) returns (ok: bool)
      modifies this`image, this`trace
      ensures image == if ok then Truncate(old(image), n) else old(image)
      ensures trace == if ok then old(trace) + [Moment(image, saved)] else old(trace)
      ensures steady ==> ok
    {
      ok := *;
      ok := ok || steady;
      if ok {
        image := Truncate(image, n);
        trace := trace + [Moment(image, saved)];
      }
    }

    method Unlink()
      modifies this`linked
      ensures !linked
    {
      linked := false;
    }
  }

  lemma SafeMomentAdded(trace: seq<Moment>, m: Moment, sectSize: nat, total: nat)
    requires forall k :: 0 <= k < |trace| ==> CrashSafe(trace[k], sectSize, total)
    requires CrashSafe(m, sectSize, total)
    ensures forall k :: 0 <= k < |trace + [m]| ==> CrashSafe((trace + [m])[k], sectSize, total)
  {
  }

  lemma DirtyMomentSafe(trace: seq<Moment>, m: Moment, sectSize: nat, total: nat)
    requires forall k :: 0 <= k < |trace| ==> CrashSafe(trace[k], sectSize, total)
    requires !CleanHeader(m.image)
    ensures forall k :: 0 <= k < |trace + [m]| ==> CrashSafe((trace + [m])[k], sectSize, total)
  {
  }
}
