/** The offline tool: brings an image of one snapshot up to the next by copying
    the blocks that the old index marks. */
module UpdateImg {
  import opened Blocks

  const CHUNK := 8192

  type Part = n: nat | n < 512
  type Errno = n: nat | n > 0 witness 1

  /** How the transfer of one block went: all of it; cut short after some whole
      words and perhaps part of the next, which sets no error number; or failed. */
  datatype Transfer = Whole | Short(words: Part, torn: Word) | Failure(errno: Errno)

  /** What the system does with the reads of the index, chunk by chunk, and with
      each block's read and write. */
  datatype Transfers = Transfers(chunk: nat -> Transfer, read: nat -> Transfer, write: nat -> Transfer)

  datatype Fate = Copied | FellShort | Failed(errno: Errno)

  /** A read of a block that is not wholly inside the snapshot is cut short. */
  function ReadOf(io: Transfers, snapBytes: nat, b: nat): Transfer {
    if (b + 1) * 4096 > snapBytes && io.read(b).Whole? then Short(0, 0) else io.read(b)
  }

  function FateOf(io: Transfers, snapBytes: nat, b: nat): Fate {
    match ReadOf(io, snapBytes, b)
    case Failure(e) => Failed(e)
    case Short(_, _) => FellShort
    case Whole =>
      match io.write(b)
      case Failure(e) => Failed(e)
      case Short(_, _) => FellShort
      case Whole => Copied
  }

  /** Word i of the image after its block was copied, in whatever way that went. */
  function WordAfter(io: Transfers, snapBytes: nat, snap: seq<Word>, i: nat, was: Word): Word {
    if !ReadOf(io, snapBytes, i / 512).Whole? || i >= |snap| then was
    else
      match io.write(i / 512)
      case Whole => snap[i]
      case Short(n, torn) => if i % 512 < n then snap[i] else if i % 512 == n then torn else was
      case Failure(_) => was
  }

  /** The image after the marked blocks were copied. */
  function Written(img: seq<Word>, marked: set<nat>, io: Transfers, snapBytes: nat, snap: seq<Word>): (now: seq<Word>)
    ensures |now| == |img|
    ensures forall i :: 0 <= i < |img| ==>
              now[i] == if i / 512 in marked then WordAfter(io, snapBytes, snap, i, img[i]) else img[i]
  {
    seq<Word>(|img|, i requires 0 <= i < |img| =>
      if i / 512 in marked then WordAfter(io, snapBytes, snap, i, img[i]) else img[i])
  }

  /** What copying a block returns, and errno afterwards. */
  function Verdict(fate: Fate, errno: nat): (nat, nat) {
    match fate
    case Copied => (0, errno)
    case FellShort => (errno, 0)
    case Failed(e) => (e, 0)
  }

  /** Copies one block. On any shortfall the result is errno as it stands. */
  method CopyBlock(snap: seq<Word>, snapBytes: nat, img: array<Word>, b: nat, io: Transfers, errno: nat)
    returns (ret: nat, errno': nat)
    requires snapBytes <= |snap| * 8 && snapBytes / 4096 * 512 <= img.Length
    modifies img
    ensures img[..] == Written(old(img[..]), {b}, io, snapBytes, snap)
    ensures (ret, errno') == Verdict(FateOf(io, snapBytes, b), errno)
  {
    errno' := errno;
    ghost var was := img[..];
    var read := ReadOf(io, snapBytes, b);
    if !read.Whole? {
      if read.Failure? { errno' := read.errno; }
      ret, errno' := errno', 0;
      assert img[..] == was;
      return;
    }
    var words := if io.write(b).Whole? then 512 else if io.write(b).Short? then io.write(b).words else 0;
    forall i | b * 512 <= i < b * 512 + words {
      img[i] := snap[i];
    }
    if io.write(b).Whole? {
      ret := 0;
    } else {
      if io.write(b).Short? {
        img[b * 512 + words] := io.write(b).torn;
      } else {
        errno' := io.write(b).errno;
      }
      ret, errno' := errno', 0;
    }
    forall i | 0 <= i < img.Length
      ensures img[i] == Written(was, {b}, io, snapBytes, snap)[i]
    {
      assert b * 512 <= i < (b + 1) * 512 <==> i / 512 == b;
    }
  }

  /** Marked blocks below n. */
  function MarkedBelow(index: seq<Word>, n: nat): set<nat>
    requires n <= |index|
  {
    set b: nat | b < n && index[b] != 0
  }

  datatype Tally = Tally(errors: nat, errno: nat)

  /** Errors reported for the blocks below n. */
  function TallyBelow(index: seq<Word>, n: nat, io: Transfers, snapBytes: nat, errno: nat): Tally
    requires n <= |index|
  {
    if n == 0 then Tally(0, errno) else
    var t := TallyBelow(index, n - 1, io, snapBytes, errno);
    if index[n - 1] == 0 then t else
    var (ret, after) := Verdict(FateOf(io, snapBytes, n - 1), t.errno);
    Tally(if ret != 0 then t.errors + 1 else t.errors, after)
  }

  lemma WriteMore(img: seq<Word>, marked: set<nat>, io: Transfers, snapBytes: nat, snap: seq<Word>, b: nat)
    requires b !in marked
    ensures Written(Written(img, marked, io, snapBytes, snap), {b}, io, snapBytes, snap)
            == Written(img, marked + {b}, io, snapBytes, snap)
  {
  }

  lemma MarkedStep(index: seq<Word>, n: nat)
    requires n < |index|
    ensures index[n] == 0 ==> MarkedBelow(index, n + 1) == MarkedBelow(index, n)
    ensures index[n] != 0 ==>
      && n !in MarkedBelow(index, n)
      && MarkedBelow(index, n + 1) == MarkedBelow(index, n) + {n}
      && |MarkedBelow(index, n + 1)| == |MarkedBelow(index, n)| + 1
  {
    if index[n] != 0 { assert MarkedBelow(index, n + 1) == MarkedBelow(index, n) + {n}; }
  }

  /** What the merge has done once it has looked at the blocks below n. */
  ghost predicate MergedBelow(img: seq<Word>, now: seq<Word>, index: seq<Word>, n: nat, io: Transfers,
                              snapBytes: nat, snap: seq<Word>, errno: nat, count: nat, tally: Tally)
    requires n <= |index|
  {
    && now == Written(img, MarkedBelow(index, n), io, snapBytes, snap)
    && count == |MarkedBelow(index, n)|
    && tally == TallyBelow(index, n, io, snapBytes, errno)
  }

  /** One block of the index. */
  method MergeBlock(snap: seq<Word>, snapBytes: nat, index: seq<Word>, img: array<Word>, b: nat, io: Transfers,
                    count: nat, tally: Tally, ghost was: seq<Word>, ghost errno: nat)
    returns (count': nat, tally': Tally)
    requires b < |index| && snapBytes / 4096 * 512 <= img.Length && snapBytes <= |snap| * 8
    requires MergedBelow(was, img[..], index, b, io, snapBytes, snap, errno, count, tally)
    modifies img
    ensures MergedBelow(was, img[..], index, b + 1, io, snapBytes, snap, errno, count', tally')
  {
    MarkedStep(index, b);
    count', tally' := count, tally;
    if index[b] == 0 { return; }
    var ret, after := CopyBlock(snap, snapBytes, img, b, io, tally.errno);
    WriteMore(was, MarkedBelow(index, b), io, snapBytes, snap, b);
    tally' := Tally(if ret != 0 then tally.errors + 1 else tally.errors, after);
    count' := count + 1;
  }

  function TotalBlocks(snapBytes: nat): nat { (snapBytes + 4095) / 4096 }

  function Chunks(snapBytes: nat): nat { (TotalBlocks(snapBytes) + 8191) / 8192 }

  /** First block behind chunk i. */
  function ChunkEnd(snapBytes: nat, i: nat): nat { Min(i * 8192 + 8192, TotalBlocks(snapBytes)) }

  /** A read of a chunk that is not wholly inside the index is cut short. */
  function IndexRead(io: Transfers, index: seq<Word>, snapBytes: nat, i: nat): Transfer {
    if ChunkEnd(snapBytes, i) > |index| && io.chunk(i).Whole? then Short(0, 0) else io.chunk(i)
  }

  /** The first chunk from i on that is not read whole, or the number of chunks. */
  function StopsAt(io: Transfers, index: seq<Word>, snapBytes: nat, i: nat): (k: nat)
    requires i <= Chunks(snapBytes)
    ensures i <= k <= Chunks(snapBytes)
    ensures k < Chunks(snapBytes) ==> !IndexRead(io, index, snapBytes, k).Whole?
    ensures forall j :: i <= j < k ==> IndexRead(io, index, snapBytes, j).Whole?
    decreases Chunks(snapBytes) - i
  {
    if i == Chunks(snapBytes) || !IndexRead(io, index, snapBytes, i).Whole? then i
    else StopsAt(io, index, snapBytes, i + 1)
  }

  /** The blocks the merge gets to look at. */
  function Seen(io: Transfers, index: seq<Word>, snapBytes: nat): (n: nat)
    ensures n <= TotalBlocks(snapBytes) && n <= |index|
    ensures n == TotalBlocks(snapBytes) <==> StopsAt(io, index, snapBytes, 0) == Chunks(snapBytes)
  {
    var k := StopsAt(io, index, snapBytes, 0);
    assert k > 0 ==> IndexRead(io, index, snapBytes, k - 1).Whole?;
    Min(k * 8192, TotalBlocks(snapBytes))
  }

  /** What the tool returns to its caller. */
  function ExitStatus(io: Transfers, index: seq<Word>, snapBytes: nat, errno: nat): nat {
    var k := StopsAt(io, index, snapBytes, 0);
    if k == Chunks(snapBytes) then 0
    else
      match IndexRead(io, index, snapBytes, k)
      case Failure(e) => e
      case _ => TallyBelow(index, Seen(io, index, snapBytes), io, snapBytes, errno).errno
  }

  /** One chunk: the blocks from `done` on. */
  method MergeChunk(snap: seq<Word>, snapBytes: nat, index: seq<Word>, img: array<Word>, done: nat, toRead: nat,
                    io: Transfers, count: nat, tally: Tally, ghost was: seq<Word>, ghost errno: nat)
    returns (count': nat, tally': Tally)
    requires done + toRead <= |index| && snapBytes / 4096 * 512 <= img.Length && snapBytes <= |snap| * 8
    requires MergedBelow(was, img[..], index, done, io, snapBytes, snap, errno, count, tally)
    modifies img
    ensures MergedBelow(was, img[..], index, done + toRead, io, snapBytes, snap, errno, count', tally')
  {
    count', tally' := count, tally;
    for j := 0 to toRead
      invariant MergedBelow(was, img[..], index, done + j, io, snapBytes, snap, errno, count', tally')
    {
      count', tally' := MergeBlock(snap, snapBytes, index, img, done + j, io, count', tally', was, errno);
    }
  }

  /** The merge, chunk of index by chunk of index, and the tool's exit status. It
      finishes, and prints its counts, if every chunk could be read whole. */
  method Update(snap: seq<Word>, snapBytes: nat, index: seq<Word>, img: array<Word>, io: Transfers, errno: nat)
    returns (finished: bool, status: nat, count: nat, tally: Tally)
    requires snapBytes <= |snap| * 8 && snapBytes / 4096 * 512 <= img.Length
    modifies img
    ensures finished <==> Seen(io, index, snapBytes) == TotalBlocks(snapBytes)
    ensures status == ExitStatus(io, index, snapBytes, errno)
    ensures MergedBelow(old(img[..]), img[..], index, Seen(io, index, snapBytes), io, snapBytes, snap, errno, count,
                        tally)
  {
    var total := TotalBlocks(snapBytes);
    var chunks := (total + CHUNK - 1) / CHUNK;
    ghost var was := img[..];
    var done := 0;
    count, tally := 0, Tally(0, errno);
    assert MarkedBelow(index, 0) == {};
    for i := 0 to chunks
      invariant done == Min(i * 8192, total) && done <= |index|
      invariant StopsAt(io, index, snapBytes, 0) == StopsAt(io, index, snapBytes, i)
      invariant MergedBelow(was, img[..], index, done, io, snapBytes, snap, errno, count, tally)
    {
      var toRead := if total - done < CHUNK then total - done else CHUNK;
      var read := IndexRead(io, index, snapBytes, i);
      if !read.Whole? {
        return false, if read.Failure? then read.errno else tally.errno, count, tally;
      }
      count, tally := MergeChunk(snap, snapBytes, index, img, done, toRead, io, count, tally, was, errno);
      done := done + toRead;
    }
    return true, 0, count, tally;
  }

  // ------------------------------------------------- what "no errors" is worth

  predicate IsCopied(io: Transfers, snapBytes: nat, b: nat) { FateOf(io, snapBytes, b).Copied? }
  predicate IsFailed(io: Transfers, snapBytes: nat, b: nat) { FateOf(io, snapBytes, b).Failed? }

  ghost predicate AllCopied(index: seq<Word>, n: nat, io: Transfers, snapBytes: nat)
    requires n <= |index|
  {
    forall b :: b in MarkedBelow(index, n) ==> IsCopied(io, snapBytes, b)
  }

  ghost predicate NoneFailed(index: seq<Word>, n: nat, io: Transfers, snapBytes: nat)
    requires n <= |index|
  {
    forall b :: b in MarkedBelow(index, n) ==> !IsFailed(io, snapBytes, b)
  }

  /** Any trouble leaves errno clear. */
  lemma {:induction false} ErrnoAfter(index: seq<Word>, n: nat, io: Transfers, snapBytes: nat, errno: nat)
    requires n <= |index|
    ensures TallyBelow(index, n, io, snapBytes, errno).errno == if AllCopied(index, n, io, snapBytes) then errno else 0
  {
    if n > 0 {
      ErrnoAfter(index, n - 1, io, snapBytes, errno);
      MarkedNext(index, n - 1, io, snapBytes);
    }
  }

  lemma MarkedNext(index: seq<Word>, n: nat, io: Transfers, snapBytes: nat)
    requires n < |index|
    ensures AllCopied(index, n + 1, io, snapBytes)
            <==> AllCopied(index, n, io, snapBytes) && (index[n] == 0 || IsCopied(io, snapBytes, n))
    ensures NoneFailed(index, n + 1, io, snapBytes)
            <==> NoneFailed(index, n, io, snapBytes) && (index[n] == 0 || !IsFailed(io, snapBytes, n))
  {
    MarkedStep(index, n);
    if index[n] != 0 { assert n in MarkedBelow(index, n + 1); }
  }

  /** The marked blocks whose transfer failed outright. */
  function FailedBelow(index: seq<Word>, n: nat, io: Transfers, snapBytes: nat): set<nat>
    requires n <= |index|
  {
    set b | b in MarkedBelow(index, n) && IsFailed(io, snapBytes, b)
  }

  /** The first marked block below n that was not copied, or n. */
  function FirstUncopied(index: seq<Word>, n: nat, io: Transfers, snapBytes: nat): (k: nat)
    requires n <= |index|
    ensures k <= n
    ensures k < n ==> k in MarkedBelow(index, n) && !IsCopied(io, snapBytes, k)
    ensures forall b :: b in MarkedBelow(index, n) && b < k ==> IsCopied(io, snapBytes, b)
  {
    if n == 0 then 0 else
    var k := FirstUncopied(index, n - 1, io, snapBytes);
    if k < n - 1 then k
    else if index[n - 1] != 0 && !IsCopied(io, snapBytes, n - 1) then n - 1
    else n
  }

  /** A transfer that fell short while errno was still set from before the merge. */
  predicate StaleErrno(index: seq<Word>, n: nat, io: Transfers, snapBytes: nat, errno: nat)
    requires n <= |index|
  {
    var k := FirstUncopied(index, n, io, snapBytes);
    errno != 0 && k < n && FateOf(io, snapBytes, k).FellShort?
  }

  lemma FailedNext(index: seq<Word>, n: nat, io: Transfers, snapBytes: nat)
    requires n < |index|
    ensures |FailedBelow(index, n + 1, io, snapBytes)|
            == |FailedBelow(index, n, io, snapBytes)| + if index[n] != 0 && IsFailed(io, snapBytes, n) then 1 else 0
  {
    MarkedStep(index, n);
    var before, after := FailedBelow(index, n, io, snapBytes), FailedBelow(index, n + 1, io, snapBytes);
    if index[n] != 0 && IsFailed(io, snapBytes, n) {
      assert n !in before && after == before + {n};
    } else {
      assert after == before;
    }
  }

  lemma FirstAndAll(index: seq<Word>, n: nat, io: Transfers, snapBytes: nat)
    requires n <= |index|
    ensures AllCopied(index, n, io, snapBytes) <==> FirstUncopied(index, n, io, snapBytes) == n
  {
    var k := FirstUncopied(index, n, io, snapBytes);
    if k < n { assert k in MarkedBelow(index, n); }
  }

  /** The number of errors the tool reports: one for each marked block whose transfer
      failed, and one more if errno was set when the merge began and the first marked
      block that was not copied fell short. */
  lemma {:induction false} ErrorsExactly(index: seq<Word>, n: nat, io: Transfers, snapBytes: nat, errno: nat)
    requires n <= |index|
    ensures TallyBelow(index, n, io, snapBytes, errno).errors
            == |FailedBelow(index, n, io, snapBytes)|
               + if StaleErrno(index, n, io, snapBytes, errno) then 1 else 0
  {
    if n == 0 {
      assert FailedBelow(index, 0, io, snapBytes) == {};
    } else {
      ErrorsExactly(index, n - 1, io, snapBytes, errno);
      ErrnoAfter(index, n - 1, io, snapBytes, errno);
      FirstAndAll(index, n - 1, io, snapBytes);
      FailedNext(index, n - 1, io, snapBytes);
    }
  }

  /** When the tool reports no errors: nothing failed, and if something fell short,
      errno happened to be clear when the merge began. */
  lemma {:induction false} NoErrorsExactly(index: seq<Word>, n: nat, io: Transfers, snapBytes: nat, errno: nat)
    requires n <= |index|
    ensures TallyBelow(index, n, io, snapBytes, errno).errors == 0
            <==> NoneFailed(index, n, io, snapBytes) && (errno == 0 || AllCopied(index, n, io, snapBytes))
  {
    if n > 0 {
      NoErrorsExactly(index, n - 1, io, snapBytes, errno);
      ErrnoAfter(index, n - 1, io, snapBytes, errno);
      MarkedNext(index, n - 1, io, snapBytes);
    }
  }

  /** When the tool ends early and still exits with zero: the read of the index that
      stopped it was cut short, and errno was clear, because it was at the start or
      because some marked block before was not copied. */
  lemma ZeroExitExactly(io: Transfers, index: seq<Word>, snapBytes: nat, errno: nat)
    requires Seen(io, index, snapBytes) < TotalBlocks(snapBytes)
    ensures ExitStatus(io, index, snapBytes, errno) == 0
            <==> && IndexRead(io, index, snapBytes, StopsAt(io, index, snapBytes, 0)).Short?
                 && (errno == 0 || !AllCopied(index, Seen(io, index, snapBytes), io, snapBytes))
  {
    ErrnoAfter(index, Seen(io, index, snapBytes), io, snapBytes, errno);
  }

  /** An index that is too short: nothing is copied, and the exit status is zero. */
  lemma ShortIndexExitsZero()
    ensures TotalBlocks(4096) == 1 && Seen(ALL_WELL, [], 4096) == 0 && ExitStatus(ALL_WELL, [], 4096, 0) == 0
  {
    assert IndexRead(ALL_WELL, [], 4096, 0) == Short(0, 0);
  }

  predicate CutShort(io: Transfers, b: nat) {
    io.read(b).Short? || (io.read(b).Whole? && io.write(b).Short?)
  }

  /** When a report of no errors can be taken at its word. All marked blocks were
      copied if and only if the snapshot ends on a block boundary or its last,
      partial block is not marked, and the system cut no marked block's transfer
      short. */
  lemma NoErrorsMeansCopied(index: seq<Word>, io: Transfers, snapBytes: nat, errno: nat)
    requires snapBytes > 0 && TotalBlocks(snapBytes) <= |index|
    requires TallyBelow(index, TotalBlocks(snapBytes), io, snapBytes, errno).errors == 0
    ensures AllCopied(index, TotalBlocks(snapBytes), io, snapBytes)
            <==> && (snapBytes % 4096 == 0 || index[TotalBlocks(snapBytes) - 1] == 0)
                 && forall b :: b in MarkedBelow(index, TotalBlocks(snapBytes)) && (b + 1) * 4096 <= snapBytes ==>
                      !CutShort(io, b)
  {
    var total := TotalBlocks(snapBytes);
    NoErrorsExactly(index, total, io, snapBytes, errno);
    assert (total - 1 + 1) * 4096 <= snapBytes <==> snapBytes % 4096 == 0;
    assert total - 1 in MarkedBelow(index, total) <==> index[total - 1] != 0;
    forall b | b in MarkedBelow(index, total)
      ensures IsCopied(io, snapBytes, b) <==> (b + 1) * 4096 <= snapBytes && !CutShort(io, b)
      ensures b != total - 1 ==> (b + 1) * 4096 <= snapBytes
    {
      assert !IsFailed(io, snapBytes, b);
    }
  }

  const ALL_WELL := Transfers(_ => Whole, _ => Whole, _ => Whole)
  const FULL_DISK := Transfers(_ => Whole, _ => Whole, _ => Short(1, 0))

  /** A marked last block that the snapshot ends inside of: not copied, no error. */
  lemma PartialBlockLost()
    ensures TallyBelow([5], 1, ALL_WELL, 8, 0).errors == 0
    ensures 0 in MarkedBelow([5], TotalBlocks(8)) && Written([0], MarkedBelow([5], 1), ALL_WELL, 8, [1]) == [0]
  {
    assert TallyBelow([5], 0, ALL_WELL, 8, 0) == Tally(0, 0);
  }

  /** A write of the image that the system cuts short: the block is torn, no error. */
  lemma FullDiskTears(snap: seq<Word>, img: seq<Word>)
    requires |snap| == |img| == 512 && snap[0] == snap[2] == 1 && img[0] == img[2] == 0
    ensures TallyBelow([5], 1, FULL_DISK, 4096, 0).errors == 0
    ensures var now := Written(img, MarkedBelow([5], TotalBlocks(4096)), FULL_DISK, 4096, snap);
            0 in MarkedBelow([5], 1) && now[0] == snap[0] && now[2] != snap[2]
  {
    assert TallyBelow([5], 0, FULL_DISK, 4096, 0) == Tally(0, 0);
  }

  // --------------------------------------------------------------- whole blocks

  /** An image with some blocks replaced by the snapshot's. */
  function Merge(img: seq<Word>, copied: set<nat>, snap: seq<Word>): (merged: seq<Word>)
    ensures |merged| == |img|
    ensures forall i :: 0 <= i < |img| ==> merged[i] == if i / 512 in copied && i < |snap| then snap[i] else img[i]
  {
    seq<Word>(|img|, i requires 0 <= i < |img| => if i / 512 in copied && i < |snap| then snap[i] else img[i])
  }

  lemma MergedBlock(img: seq<Word>, copied: set<nat>, snap: seq<Word>, b: nat)
    requires (b + 1) * 512 <= |img| && (b + 1) * 512 <= |snap|
    ensures BlockAt(Merge(img, copied, snap), b) == if b in copied then BlockAt(snap, b) else BlockAt(img, b)
  {
    forall k | 0 <= k < 512
      ensures BlockAt(Merge(img, copied, snap), b)[k] == (if b in copied then BlockAt(snap, b) else BlockAt(img, b))[k]
    {
      assert (b * 512 + k) / 512 == b;
    }
  }

  /** With every marked block copied the image is the plain merge. */
  lemma CopiedIsMerge(img: seq<Word>, index: seq<Word>, n: nat, io: Transfers, snapBytes: nat, snap: seq<Word>)
    requires n <= |index| && AllCopied(index, n, io, snapBytes)
    ensures Written(img, MarkedBelow(index, n), io, snapBytes, snap) == Merge(img, MarkedBelow(index, n), snap)
  {
    var marked := MarkedBelow(index, n);
    forall i | 0 <= i < |img|
      ensures Written(img, marked, io, snapBytes, snap)[i] == Merge(img, marked, snap)[i]
    {
      if i / 512 in marked { assert IsCopied(io, snapBytes, i / 512); }
    }
  }
}
