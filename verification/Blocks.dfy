/** Units and request records shared by every layer of the model.
    A word is eight bytes, the size of one index entry: a sector holds 64 words,
    a block holds 8 sectors or 512 words. */
module Blocks {
  type Word = nat
  type Page = seq<Word>

  datatype Option<+T> = None | Some(value: T)

  function Max(a: nat, b: nat): nat { if a < b then b else a }
  function Min(a: nat, b: nat): nat { if a < b then a else b }

  predicate PagesFull(pages: map<nat, Page>) {
    forall b :: b in pages ==> |pages[b]| == 512
  }

  /** A block I/O request in snapshot-device coordinates. A captured clone is a
      write whose `pages` hold one block each; a snapshot read carries none. */
  datatype Bio = Bio(id: nat, write: bool, sector: nat, sectors: nat, pages: seq<Page>)

  /** The blocks a range of sectors touches are [FirstBlock, EndBlock). */
  function FirstBlock(sector: nat): nat {
    sector / 8
  }

  function EndBlock(sector: nat, sectors: nat): nat {
    (sector + sectors + 7) / 8
  }

  predicate Touches(sector: nat, sectors: nat, block: nat) {
    FirstBlock(sector) <= block < EndBlock(sector, sectors)
  }

  predicate Covers(bio: Bio, block: nat) {
    Touches(bio.sector, bio.sectors, block)
  }

  /** Contents of one block of a device image. */
  function BlockAt(image: seq<Word>, block: nat): Page
    requires (block + 1) * 512 <= |image|
  {
    image[block * 512..(block + 1) * 512]
  }

  /** The captured contents of `block` inside a clone that covers it. */
  function PageOf(clone: Bio, block: nat): Page
    requires Covers(clone, block) && block - FirstBlock(clone.sector) < |clone.pages|
  {
    clone.pages[block - FirstBlock(clone.sector)]
  }

  /** A captured clone: block aligned, not empty, one full page per block. */
  predicate WellFormedClone(bio: Bio) {
    && bio.write
    && bio.sector % 8 == 0
    && bio.sectors % 8 == 0
    && bio.sectors > 0
    && |bio.pages| == bio.sectors / 8
    && forall i :: 0 <= i < |bio.pages| ==> |bio.pages[i]| == 512
  }

  /** The word at an index of a snapshot read: the stored page if the block is
      in the copy-on-write store, the live device otherwise. */
  function SnapshotWord(base: seq<Word>, store: map<nat, Page>, w: nat): Word
    requires w < |base|
    requires forall b :: b in store ==> |store[b]| == 512
  {
    if w / 512 in store then store[w / 512][w % 512] else base[w]
  }

  function SnapshotRead(base: seq<Word>, store: map<nat, Page>, sector: nat, sectors: nat): (data: seq<Word>)
    requires (sector + sectors) * 64 <= |base|
    requires forall b :: b in store ==> |store[b]| == 512
    ensures |data| == sectors * 64
  {
    seq<Word>(sectors * 64, i requires 0 <= i < sectors * 64 =>
      SnapshotWord(base, store, sector * 64 + i))
  }

  /** Storing a clone keeps what the store already has. */
  function StorePages(store: map<nat, Page>, first: nat, pages: seq<Page>): map<nat, Page> {
    store + (map b | first <= b < first + |pages| && b !in store :: pages[b - first])
  }

  function StoreClone(store: map<nat, Page>, clone: Bio): map<nat, Page> {
    StorePages(store, FirstBlock(clone.sector), clone.pages)
  }
}
