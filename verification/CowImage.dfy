/** The copy-on-write file as words: header, index and data regions, what a
    restart would read from it, and the flat index it represents. */
module CowImage {
  import opened Blocks

  /** Word address -> word; an address never written reads as zero. */
  type Image = map<nat, Word>

  /** One index section. */
  type Section = seq<Word>

  function Peek(img: Image, a: nat): Word {
    if a in img then img[a] else 0
  }

  function ReadWords(img: Image, off: nat, n: nat): (ws: seq<Word>)
    ensures |ws| == n && forall i :: 0 <= i < n ==> ws[i] == Peek(img, off + i)
  {
    seq<Word>(n, i requires 0 <= i < n => Peek(img, off + i))
  }

  function Overlaid(img: Image, off: nat, ws: seq<Word>, a: nat): Word {
    if off <= a < off + |ws| then ws[a - off] else Peek(img, a)
  }

  function WriteWords(img: Image, off: nat, ws: seq<Word>): (img': Image)
    ensures forall a: nat :: Peek(img', a) == Overlaid(img, off, ws, a)
  {
    img + (map a: nat | off <= a < off + |ws| :: Overlaid(img, off, ws, a))
  }

  function Truncate(img: Image, len: nat): (img': Image)
    ensures forall a: nat :: Peek(img', a) == if a < len then Peek(img, a) else 0
  {
    map a: nat | a in img && a < len :: img[a]
  }

  /** Same words in [from, to). */
  predicate SameWords(a: Image, b: Image, from: nat, to: nat) {
    forall w: nat :: from <= w < to ==> Peek(a, w) == Peek(b, w)
  }

  lemma ReadSame(a: Image, b: Image, off: nat, n: nat)
    requires SameWords(a, b, off, off + n)
    ensures ReadWords(a, off, n) == ReadWords(b, off, n)
  {
  }

  // -------------------------------------------------------------------- header

  const MAGIC := 4776

  datatype Header = Header(magic: nat, clean: bool, indexOnly: bool, vmalloc: bool, fpos: nat, fsize: nat,
                           seqid: nat, uuid: (nat, nat), version: nat, changed: nat)

  function Bit(b: bool, v: nat): nat { if b then v else 0 }

  /** Magic and flags share the first word, in its low and high halves. */
  function Encode(h: Header): (ws: seq<Word>)
    ensures |ws| == 8
  {
    [h.magic + (Bit(h.clean, 1) + Bit(h.indexOnly, 2) + Bit(h.vmalloc, 4)) * 0x1_0000_0000,
     h.fpos, h.fsize, h.seqid, h.uuid.0, h.uuid.1, h.version, h.changed]
  }

  function Decode(ws: seq<Word>): Header
    requires |ws| == 8
  {
    var flags := ws[0] / 0x1_0000_0000;
    Header(ws[0] % 0x1_0000_0000, flags % 2 == 1, flags / 2 % 2 == 1, flags / 4 % 2 == 1,
           ws[1], ws[2], ws[3], (ws[4], ws[5]), ws[6], ws[7])
  }

  lemma HeaderRoundTrip(h: Header)
    requires h.magic < 0x1_0000_0000
    ensures Decode(Encode(h)) == h
  {
    var flags := Bit(h.clean, 1) + Bit(h.indexOnly, 2) + Bit(h.vmalloc, 4);
    assert Encode(h)[0] / 0x1_0000_0000 == flags;
  }

  /** Reading little-endian fields at a byte offset. */
  function U64At(ws: seq<Word>, byte: nat): nat
    requires byte / 8 < |ws|
  {
    ws[byte / 8]
  }

  function U32At(ws: seq<Word>, byte: nat): nat
    requires byte / 8 < |ws|
  {
    if byte % 8 < 4 then ws[byte / 8] % 0x1_0000_0000 else ws[byte / 8] / 0x1_0000_0000
  }

  predicate FlagAt(ws: seq<Word>, value: nat)
    requires value > 0 && |ws| > 0
  {
    U32At(ws, 4) / value % 2 == 1
  }

  /** The fields of a written header, where `struct cow_header` has them. */
  lemma HeaderLayout(h: Header)
    requires h.magic < 0x1_0000_0000
    ensures var ws := Encode(h);
            && U32At(ws, 0) == h.magic
            && (FlagAt(ws, 1) <==> h.clean) && (FlagAt(ws, 2) <==> h.indexOnly) && (FlagAt(ws, 4) <==> h.vmalloc)
            && U64At(ws, 8) == h.fpos && U64At(ws, 16) == h.fsize && U64At(ws, 24) == h.seqid
            && (U64At(ws, 32), U64At(ws, 40)) == h.uuid
            && U64At(ws, 48) == h.version && U64At(ws, 56) == h.changed
  {
    HeaderRoundTrip(h);
  }

  function HeaderOf(img: Image): Header {
    Decode(ReadWords(img, 0, 8))
  }

  predicate CleanHeader(img: Image) {
    HeaderOf(img).magic == MAGIC && HeaderOf(img).clean
  }

  function WriteHeader(img: Image, h: Header): Image {
    WriteWords(img, 0, Encode(h))
  }

  lemma HeaderWritten(img: Image, h: Header)
    requires h.magic < 0x1_0000_0000
    ensures HeaderOf(WriteHeader(img, h)) == h
    ensures forall a: nat :: a >= 8 ==> Peek(WriteHeader(img, h), a) == Peek(img, a)
  {
    HeaderRoundTrip(h);
    assert ReadWords(WriteHeader(img, h), 0, 8) == Encode(h);
  }

  lemma HeaderUntouched(a: Image, b: Image)
    requires SameWords(a, b, 0, 8)
    ensures HeaderOf(a) == HeaderOf(b)
  {
    ReadSame(a, b, 0, 8);
  }

  // --------------------------------------------------------------------- index

  /** First word of section i, and of the region behind i sections: sections
      follow the header one after the other. */
  function SectionAt(sectSize: nat, i: nat): (at: nat)
    ensures at >= 512
  {
    if i == 0 then 512 else SectionAt(sectSize, i - 1) + sectSize
  }

  lemma {:induction false} SectionOffset(sectSize: nat, i: nat)
    ensures SectionAt(sectSize, i) == sectSize * i + 512
  {
    if i > 0 { SectionOffset(sectSize, i - 1); }
  }

  lemma {:induction false} SectionsApart(sectSize: nat, i: nat, j: nat)
    requires i < j
    ensures SectionAt(sectSize, i) + sectSize <= SectionAt(sectSize, j)
  {
    if i + 1 < j { SectionsApart(sectSize, i, j - 1); }
  }

  function SectionOf(img: Image, sectSize: nat, i: nat): (s: Section)
    ensures |s| == sectSize
  {
    ReadWords(img, SectionAt(sectSize, i), sectSize)
  }

  function Zeros(n: nat): (s: Section)
    ensures |s| == n && forall i :: 0 <= i < n ==> s[i] == 0
  {
    seq<Word>(n, i => 0)
  }

  /** The index a restart reads: every section comes from the file. */
  function IndexOf(img: Image, sectSize: nat, total: nat): (view: seq<Section>)
    ensures |view| == total && forall i :: 0 <= i < total ==> view[i] == SectionOf(img, sectSize, i)
  {
    seq(total, i requires 0 <= i < total => SectionOf(img, sectSize, i))
  }

  /** The flat view of a cached index: resident section, else file section if
      the section has data, else zeros. */
  function CachedSection(has: seq<bool>, maps: seq<Option<Section>>, img: Image, sectSize: nat, i: nat): Section
    requires i < |has| == |maps|
  {
    if maps[i].Some? then maps[i].value
    else if has[i] then SectionOf(img, sectSize, i)
    else Zeros(sectSize)
  }

  function ViewOf(has: seq<bool>, maps: seq<Option<Section>>, img: Image, sectSize: nat): (view: seq<Section>)
    requires |has| == |maps|
    ensures |view| == |has|
    ensures forall i :: 0 <= i < |has| ==> view[i] == CachedSection(has, maps, img, sectSize, i)
  {
    seq(|has|, i requires 0 <= i < |has| => CachedSection(has, maps, img, sectSize, i))
  }

  /** The flat map from block to mapping. */
  predicate InView(view: seq<Section>, sectSize: nat, pos: nat) {
    sectSize > 0 && pos / sectSize < |view| && |view[pos / sectSize]| == sectSize
  }

  function At(view: seq<Section>, sectSize: nat, pos: nat): Word
    requires InView(view, sectSize, pos)
  {
    view[pos / sectSize][pos % sectSize]
  }

  function Put(view: seq<Section>, sectSize: nat, pos: nat, val: Word): seq<Section>
    requires InView(view, sectSize, pos)
  {
    PutIn(view, pos / sectSize, pos % sectSize, val)
  }

  function PutIn(view: seq<Section>, i: nat, at: nat, val: Word): seq<Section>
    requires i < |view| && at < |view[i]|
  {
    var section: Section := view[i][at := val];
    view[i := section]
  }

  predicate Uniform(view: seq<Section>, sectSize: nat) {
    sectSize > 0 && forall i :: 0 <= i < |view| ==> |view[i]| == sectSize
  }

  lemma PositionInside(view: seq<Section>, sectSize: nat, pos: nat)
    requires Uniform(view, sectSize) && pos < |view| * sectSize
    ensures InView(view, sectSize, pos)
  {
    assert pos / sectSize * sectSize <= pos;
    ProductMonotone(|view|, pos / sectSize, sectSize);
  }

  lemma ProductMonotone(n: nat, q: nat, s: nat)
    ensures n <= q ==> n * s <= q * s
  {
    if n <= q { assert q * s == n * s + (q - n) * s; }
  }

  lemma SamePosition(sectSize: nat, p: nat, q: nat)
    requires sectSize > 0 && p / sectSize == q / sectSize && p % sectSize == q % sectSize
    ensures p == q
  {
    assert p == p / sectSize * sectSize + p % sectSize;
  }

  lemma PutInAt(view: seq<Section>, i: nat, k: nat, val: Word, j: nat, l: nat)
    requires i < |view| && k < |view[i]| && j < |view| && l < |view[j]|
    ensures |PutIn(view, i, k, val)| == |view| && |PutIn(view, i, k, val)[j]| == |view[j]|
    ensures PutIn(view, i, k, val)[j][l] == if i == j && k == l then val else view[j][l]
  {
  }

  /** Sections behave as one flat map. */
  lemma PutThenAt(view: seq<Section>, sectSize: nat, p: nat, val: Word, q: nat)
    requires InView(view, sectSize, p) && InView(view, sectSize, q)
    ensures InView(Put(view, sectSize, p, val), sectSize, q)
    ensures At(Put(view, sectSize, p, val), sectSize, q) == if p == q then val else At(view, sectSize, q)
  {
    var i, k, j, l := p / sectSize, p % sectSize, q / sectSize, q % sectSize;
    PutInAt(view, i, k, val, j, l);
    if i == j && k == l { SamePosition(sectSize, p, q); }
  }

  // ------------------------------------------------------ changed block count

  function NonZero(s: Section): nat {
    if s == [] then 0 else (if s[0] == 0 then 0 else 1) + NonZero(s[1..])
  }

  function Changed(view: seq<Section>): nat {
    if view == [] then 0 else NonZero(view[0]) + Changed(view[1..])
  }

  function Bump(was: Word, val: Word): int {
    (if val == 0 then 0 else 1) - (if was == 0 then 0 else 1)
  }

  lemma {:induction false} NonZeroUpdate(s: Section, i: nat, val: Word)
    requires i < |s|
    ensures NonZero(s[i := val]) == NonZero(s) + Bump(s[i], val)
  {
    if i == 0 {
      assert s[0 := val][1..] == s[1..];
    } else {
      assert s[i := val][1..] == s[1..][i - 1 := val];
      NonZeroUpdate(s[1..], i - 1, val);
    }
  }

  lemma {:induction false} ChangedUpdate(view: seq<Section>, i: nat, s: Section)
    requires i < |view|
    ensures Changed(view[i := s]) == Changed(view) - NonZero(view[i]) + NonZero(s)
  {
    if i == 0 {
      assert view[0 := s][1..] == view[1..];
    } else {
      assert view[i := s][1..] == view[1..][i - 1 := s];
      ChangedUpdate(view[1..], i - 1, s);
    }
  }

  lemma PutChanges(view: seq<Section>, sectSize: nat, pos: nat, val: Word)
    requires InView(view, sectSize, pos)
    ensures Changed(Put(view, sectSize, pos, val)) == Changed(view) + Bump(At(view, sectSize, pos), val)
  {
    var i := pos / sectSize;
    NonZeroUpdate(view[i], pos % sectSize, val);
    ChangedUpdate(view, i, view[i][pos % sectSize := val]);
  }

  lemma {:induction false} ZerosUnchanged(n: nat, sectSize: nat)
    ensures Changed(seq(n, i => Zeros(sectSize))) == 0
  {
    var view := seq(n, i => Zeros(sectSize));
    if n > 0 {
      NoNonZero(Zeros(sectSize));
      assert view[1..] == seq(n - 1, i => Zeros(sectSize));
      ZerosUnchanged(n - 1, sectSize);
    }
  }

  lemma {:induction false} NoNonZero(s: Section)
    requires forall i :: 0 <= i < |s| ==> s[i] == 0
    ensures NonZero(s) == 0
  {
    if s != [] { NoNonZero(s[1..]); }
  }

  // ------------------------------------------------------------------ eviction

  /** Writing a section to its own place changes no other section. */
  lemma SectionWritten(img: Image, sectSize: nat, i: nat, s: Section, j: nat)
    requires |s| == sectSize
    ensures SectionOf(WriteWords(img, SectionAt(sectSize, i), s), sectSize, j)
            == if i == j then s else SectionOf(img, sectSize, j)
  {
    var at, img' := SectionAt(sectSize, i), WriteWords(img, SectionAt(sectSize, i), s);
    if i == j {
      assert ReadWords(img', at, sectSize) == s;
    } else {
      if i < j { SectionsApart(sectSize, i, j); } else { SectionsApart(sectSize, j, i); }
      ReadSame(img, img', SectionAt(sectSize, j), sectSize);
    }
  }

  lemma SectionWriteInIndex(img: Image, sectSize: nat, i: nat, s: Section, total: nat)
    requires |s| == sectSize && i < total
    ensures forall a: nat :: a >= SectionAt(sectSize, total) ==>
              Peek(WriteWords(img, SectionAt(sectSize, i), s), a) == Peek(img, a)
  {
    SectionsApart(sectSize, i, total);
  }

  /** Flushing a resident section and dropping it leaves the view alone. */
  lemma EvictKeepsView(has: seq<bool>, maps: seq<Option<Section>>, img: Image, sectSize: nat, i: nat)
    requires |has| == |maps| && i < |has| && has[i] && maps[i].Some? && |maps[i].value| == sectSize
    ensures ViewOf(has, maps[i := None], WriteWords(img, SectionAt(sectSize, i), maps[i].value), sectSize)
            == ViewOf(has, maps, img, sectSize)
  {
    var img' := WriteWords(img, SectionAt(sectSize, i), maps[i].value);
    forall j | 0 <= j < |has|
      ensures CachedSection(has, maps[i := None], img', sectSize, j) == CachedSection(has, maps, img, sectSize, j)
    {
      SectionWritten(img, sectSize, i, maps[i].value, j);
    }
  }

  // ---------------------------------------------------------------- data store

  function DataAt(img: Image, mapping: nat): Page {
    ReadWords(img, mapping * 512, 512)
  }

  /** Words outside [lo, hi) do not reach the header or the index. */
  lemma IndexUntouched(a: Image, b: Image, sectSize: nat, total: nat)
    requires SameWords(a, b, 0, SectionAt(sectSize, total))
    ensures HeaderOf(a) == HeaderOf(b)
    ensures forall i :: 0 <= i < total ==> SectionOf(a, sectSize, i) == SectionOf(b, sectSize, i)
    ensures IndexOf(a, sectSize, total) == IndexOf(b, sectSize, total)
  {
    HeaderUntouched(a, b);
    forall i | 0 <= i < total
      ensures SectionOf(a, sectSize, i) == SectionOf(b, sectSize, i)
    {
      SectionsApart(sectSize, i, total);
      ReadSame(a, b, SectionAt(sectSize, i), sectSize);
    }
  }
}
