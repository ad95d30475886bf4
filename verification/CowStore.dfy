/** The copy-on-write store an index and a file stand for: block -> old page. */
module CowStore {
  import opened Blocks
  import opened CowImage

  predicate Mapped(view: seq<Section>, sectSize: nat, p: nat) {
    InView(view, sectSize, p) && At(view, sectSize, p) != 0
  }

  /** Mappings point to distinct data blocks behind the index, before the next
      free one. */
  ghost predicate StoreOk(view: seq<Section>, sectSize: nat, first: nat, next: nat) {
    && 0 < first <= next
    && (forall p: nat :: Mapped(view, sectSize, p) ==> first <= At(view, sectSize, p) < next)
    && (forall p: nat, q: nat :: p != q && Mapped(view, sectSize, p) && Mapped(view, sectSize, q) ==>
          At(view, sectSize, p) != At(view, sectSize, q))
  }

  /** The store of a device of `blocks` blocks. */
  function StoreOf(view: seq<Section>, sectSize: nat, blocks: nat, img: Image): map<nat, Page> {
    map p: nat | p < blocks && Mapped(view, sectSize, p) :: DataAt(img, At(view, sectSize, p))
  }

  ghost predicate SameFrom(a: Image, b: Image, from: nat) {
    forall w: nat :: from <= w ==> Peek(a, w) == Peek(b, w)
  }

  lemma DataSame(a: Image, b: Image, first: nat, mapping: nat)
    requires SameFrom(a, b, first * 512) && first <= mapping
    ensures DataAt(a, mapping) == DataAt(b, mapping)
  {
    ReadSame(a, b, mapping * 512, 512);
  }

  /** What happens in front of the data does not change the store. */
  lemma StoreKept(view: seq<Section>, sectSize: nat, blocks: nat, first: nat, next: nat, a: Image, b: Image)
    requires StoreOk(view, sectSize, first, next) && SameFrom(a, b, first * 512)
    ensures StoreOf(view, sectSize, blocks, a) == StoreOf(view, sectSize, blocks, b)
  {
    forall p: nat | Mapped(view, sectSize, p)
      ensures DataAt(a, At(view, sectSize, p)) == DataAt(b, At(view, sectSize, p))
    {
      DataSame(a, b, first, At(view, sectSize, p));
    }
  }

  lemma PutUniform(view: seq<Section>, sectSize: nat, p: nat, val: Word)
    requires Uniform(view, sectSize) && InView(view, sectSize, p)
    ensures Uniform(Put(view, sectSize, p, val), sectSize) && |Put(view, sectSize, p, val)| == |view|
    ensures forall q: nat :: InView(Put(view, sectSize, p, val), sectSize, q) <==> InView(view, sectSize, q)
  {
  }

  /** Mapping a new block to the next free data block keeps the store in order. */
  lemma AppendKeepsOk(view: seq<Section>, sectSize: nat, first: nat, next: nat, p: nat)
    requires Uniform(view, sectSize) && StoreOk(view, sectSize, first, next)
    requires InView(view, sectSize, p) && !Mapped(view, sectSize, p)
    ensures StoreOk(Put(view, sectSize, p, next), sectSize, first, next + 1)
  {
    var view' := Put(view, sectSize, p, next);
    PutUniform(view, sectSize, p, next);
    forall q: nat | Mapped(view', sectSize, q)
      ensures first <= At(view', sectSize, q) <= next && (At(view', sectSize, q) == next <==> q == p)
      ensures q != p ==> Mapped(view, sectSize, q) && At(view', sectSize, q) == At(view, sectSize, q)
    {
      PutThenAt(view, sectSize, p, next, q);
    }
  }

  lemma PageWritten(img: Image, next: nat, page: Page, mapping: nat)
    requires |page| == 512 && mapping <= next
    ensures DataAt(WriteWords(img, next * 512, page), mapping) == if mapping == next then page else DataAt(img, mapping)
  {
    var img' := WriteWords(img, next * 512, page);
    if mapping == next {
      assert ReadWords(img', next * 512, 512) == page;
    } else {
      ReadSame(img, img', mapping * 512, 512);
    }
  }

  /** The page written to that data block is what the new mapping reads; every
      other stored page stays. */
  lemma AppendStores(view: seq<Section>, sectSize: nat, blocks: nat, first: nat, next: nat, p: nat, img: Image,
                     page: Page)
    requires Uniform(view, sectSize) && StoreOk(view, sectSize, first, next) && |page| == 512
    requires p < blocks && InView(view, sectSize, p) && !Mapped(view, sectSize, p)
    ensures StoreOf(Put(view, sectSize, p, next), sectSize, blocks, WriteWords(img, next * 512, page))
            == StoreOf(view, sectSize, blocks, img)[p := page]
  {
    var view', img' := Put(view, sectSize, p, next), WriteWords(img, next * 512, page);
    PutUniform(view, sectSize, p, next);
    forall q: nat | InView(view, sectSize, q)
      ensures Mapped(view', sectSize, q) <==> q == p || Mapped(view, sectSize, q)
      ensures Mapped(view', sectSize, q) ==>
                DataAt(img', At(view', sectSize, q))
                == if q == p then page else DataAt(img, At(view, sectSize, q))
    {
      PutThenAt(view, sectSize, p, next, q);
      if Mapped(view', sectSize, q) { PageWritten(img, next, page, At(view', sectSize, q)); }
    }
  }

  /** Every page of `a` is in `b`. */
  predicate Survives(a: map<nat, Page>, b: map<nat, Page>) {
    forall p :: p in a ==> p in b && b[p] == a[p]
  }

  /** A new mapping by itself, before its page is written, hurts no other block. */
  lemma MappingSurvives(view: seq<Section>, sectSize: nat, blocks: nat, p: nat, val: Word, img: Image)
    requires Uniform(view, sectSize) && InView(view, sectSize, p) && !Mapped(view, sectSize, p)
    ensures Survives(StoreOf(view, sectSize, blocks, img), StoreOf(Put(view, sectSize, p, val), sectSize, blocks, img))
  {
    PutUniform(view, sectSize, p, val);
    forall q: nat | Mapped(view, sectSize, q)
      ensures At(Put(view, sectSize, p, val), sectSize, q) == At(view, sectSize, q)
    {
      PutThenAt(view, sectSize, p, val, q);
    }
  }

  /** Together: a new mapping is harmless by itself, and adds its page once the
      page is written. */
  lemma NewPage(view: seq<Section>, sectSize: nat, blocks: nat, first: nat, next: nat, p: nat, img: Image, page: Page)
    requires Uniform(view, sectSize) && StoreOk(view, sectSize, first, next) && |page| == 512
    requires p < blocks && InView(view, sectSize, p) && !Mapped(view, sectSize, p)
    ensures var view' := Put(view, sectSize, p, next);
            && StoreOk(view', sectSize, first, next + 1)
            && InView(view', sectSize, p) && At(view', sectSize, p) == next
            && Survives(StoreOf(view, sectSize, blocks, img), StoreOf(view', sectSize, blocks, img))
            && StoreOf(view', sectSize, blocks, WriteWords(img, next * 512, page))
               == StoreOf(view, sectSize, blocks, img)[p := page]
  {
    PutThenAt(view, sectSize, p, next, p);
    AppendKeepsOk(view, sectSize, first, next, p);
    AppendStores(view, sectSize, blocks, first, next, p, img, page);
    MappingSurvives(view, sectSize, blocks, p, next, img);
  }

  /** The same when sections may have moved between cache and file meanwhile. */
  lemma NewMapping(view: seq<Section>, view': seq<Section>, sectSize: nat, blocks: nat, first: nat, next: nat, p: nat,
                   img: Image, img': Image, page: Page)
    requires Uniform(view, sectSize) && StoreOk(view, sectSize, first, next) && |page| == 512
    requires p < blocks && InView(view, sectSize, p) && !Mapped(view, sectSize, p)
    requires SameFrom(img, img', first * 512)
    requires view' == Put(view, sectSize, p, next) || view' == view
    ensures Survives(StoreOf(view, sectSize, blocks, img), StoreOf(view', sectSize, blocks, img'))
    ensures view' == Put(view, sectSize, p, next) ==>
      && StoreOk(view', sectSize, first, next + 1)
      && InView(view', sectSize, p) && At(view', sectSize, p) == next
      && StoreOf(view', sectSize, blocks, WriteWords(img', next * 512, page))
         == StoreOf(view, sectSize, blocks, img)[p := page]
  {
    StoreKept(view, sectSize, blocks, first, next, img, img');
    NewPage(view, sectSize, blocks, first, next, p, img', page);
  }

  lemma {:induction false} AlignedStart(sectSize: nat, total: nat)
    requires sectSize % 512 == 0
    ensures SectionAt(sectSize, total) % 512 == 0
    ensures SectionAt(sectSize, total) / 512 * 512 == SectionAt(sectSize, total)
  {
    if total > 0 {
      AlignedStart(sectSize, total - 1);
      var before, step := SectionAt(sectSize, total - 1) / 512, sectSize / 512;
      assert SectionAt(sectSize, total) == (before + step) * 512;
    }
  }
}
