/**
  The page cache of an inode, and the flat byte file it stands for.

  `fill` gives the contents of a page the first time it is needed, or fails, with
  a null pointer or with an error pointer.  A read tests only for the second and
  the begin hook of a write only for the first; the other failure goes unnoticed.
 */
module PageCache {
  import opened Basics

  const U64: int := 0x1_0000_0000_0000_0000

  type byte = b: int | 0 <= b < 256

  type Page = seq<byte>
  type Pages = map<nat, Page>

  /** What the fill hook of a file system returns. */
  datatype Fill = Filled(page: Page) | Null | Error

  ghost predicate FillOk(fill: nat -> Fill) {
    forall p :: fill(p).Filled? ==> |fill(p).page| == PAGE
  }

  ghost predicate PagesOk(pages: Pages) {
    forall p :: p in pages ==> |pages[p]| == PAGE
  }

  /** The flat file: cached bytes where a page is cached, otherwise what would be filled in. */
  ghost function Flat(fill: nat -> Fill, pages: Pages, i: nat): byte
    requires FillOk(fill) && PagesOk(pages)
  {
    if i / PAGE in pages then pages[i / PAGE][i % PAGE]
    else if fill(i / PAGE).Filled? then fill(i / PAGE).page[i % PAGE]
    else 0
  }

  ghost function Slice(fill: nat -> Fill, pages: Pages, offset: nat, n: nat): seq<byte>
    requires FillOk(fill) && PagesOk(pages)
  {
    seq<byte>(n, (k: nat) => Flat(fill, pages, offset + k))
  }

  lemma SliceSplits(fill: nat -> Fill, pages: Pages, offset: nat, n: nat, m: nat)
    requires FillOk(fill) && PagesOk(pages)
    ensures Slice(fill, pages, offset, n + m) == Slice(fill, pages, offset, n) + Slice(fill, pages, offset + n, m)
  {
  }

  ghost predicate SameFlat(fill: nat -> Fill, a: Pages, b: Pages)
    requires FillOk(fill) && PagesOk(a) && PagesOk(b)
  {
    forall i: nat :: Flat(fill, a, i) == Flat(fill, b, i)
  }

  /** The bytes of `buf` stand at `offset`, and nothing else differs. */
  ghost predicate Overwritten(fill: nat -> Fill, a: Pages, b: Pages, offset: nat, buf: seq<byte>)
    requires FillOk(fill) && PagesOk(a) && PagesOk(b)
  {
    forall i: nat :: Flat(fill, b, i) == if offset <= i < offset + |buf| then buf[i - offset] else Flat(fill, a, i)
  }

  /** Bytes that lie in one page, as the source cuts a range into pages. */
  function InPage(offset: nat, left: nat): nat { Min(PAGE - offset % PAGE, left) }

  /** The range has a byte on page `p`. */
  predicate Touches(from: nat, n: nat, p: nat) { n > 0 && p * PAGE < from + n && from < (p + 1) * PAGE }

  /** The page is cached or can be filled. */
  predicate Reachable(fill: nat -> Fill, pages: Pages, p: nat) { p in pages || fill(p).Filled? }

  ghost predicate AllReachable(fill: nat -> Fill, pages: Pages, from: nat, n: nat) {
    forall p: nat :: Touches(from, n, p) ==> Reachable(fill, pages, p)
  }

  lemma TouchesMore(fill: nat -> Fill, pages: Pages, from: nat, done: nat, n: nat, size: nat)
    requires 0 < n && done + n <= size && (from + done) % PAGE + n <= PAGE
    ensures Touches(from, size, (from + done) / PAGE)
    ensures AllReachable(fill, pages, from, done) && Reachable(fill, pages, (from + done) / PAGE) ==>
              AllReachable(fill, pages, from, done + n)
  {
  }

  /** A page with `data` copied in at `o`. */
  function Patched(page: Page, o: nat, data: seq<byte>): Page
    requires o + |data| <= |page|
  {
    page[..o] + data + page[o + |data|..]
  }

  lemma FilledSame(fill: nat -> Fill, pages: Pages, p: nat)
    requires FillOk(fill) && PagesOk(pages) && p !in pages && fill(p).Filled?
    ensures PagesOk(pages[p := fill(p).page]) && SameFlat(fill, pages, pages[p := fill(p).page])
  {
  }

  lemma PatchedFlat(fill: nat -> Fill, pages: Pages, offset: nat, data: seq<byte>)
    requires FillOk(fill) && PagesOk(pages) && offset / PAGE in pages && offset % PAGE + |data| <= PAGE
    ensures var after := pages[offset / PAGE := Patched(pages[offset / PAGE], offset % PAGE, data)];
            PagesOk(after) && Overwritten(fill, pages, after, offset, data)
  {
  }

  lemma OverwrittenChains(fill: nat -> Fill, a: Pages, b: Pages, c: Pages, offset: nat, x: seq<byte>, y: seq<byte>)
    requires FillOk(fill) && PagesOk(a) && PagesOk(b) && PagesOk(c)
    requires Overwritten(fill, a, b, offset, x) && Overwritten(fill, b, c, offset + |x|, y)
    ensures Overwritten(fill, a, c, offset, x + y)
  {
  }

  lemma PageBytes(fill: nat -> Fill, pages: Pages, offset: nat, n: nat)
    requires FillOk(fill) && PagesOk(pages) && offset / PAGE in pages && offset % PAGE + n <= PAGE
    ensures pages[offset / PAGE][offset % PAGE..offset % PAGE + n] == Slice(fill, pages, offset, n)
  {
    var p: nat, o: nat := offset / PAGE, offset % PAGE;
    assert offset == p * PAGE + o;
    forall k: nat | k < n ensures pages[p][o..o + n][k] == Slice(fill, pages, offset, n)[k] {
      assert (offset + k) / PAGE == p && (offset + k) % PAGE == o + k;
      assert Slice(fill, pages, offset, n)[k] == Flat(fill, pages, offset + k);
      assert pages[p][o..o + n][k] == pages[p][o + k];
    }
  }

  lemma SameSlice(fill: nat -> Fill, a: Pages, b: Pages, offset: nat, n: nat)
    requires FillOk(fill) && PagesOk(a) && PagesOk(b) && SameFlat(fill, a, b)
    ensures Slice(fill, a, offset, n) == Slice(fill, b, offset, n)
  {
  }

  /**
    How a read ends: with the bytes, with an error after `done` bytes, or wild,
    reading through a null page.
   */
  datatype ReadResult = Data(bytes: seq<byte>) | Failed(done: nat) | WildRead(done: nat)

  /** How a write ends: done, refused after `done` bytes, or wild, writing through an error pointer. */
  datatype WriteResult = Written(n: nat) | Refused(done: nat) | WildWrite(done: nat)

  /** The first page that cannot be had, after `done` bytes. */
  ghost predicate StopsAt(fill: nat -> Fill, pages: Pages, from: nat, done: nat) {
    AllReachable(fill, pages, from, done) && !Reachable(fill, pages, (from + done) / PAGE)
  }

  /** The size the source computes for a read, in unsigned 64-bit arithmetic. */
  function ReadSize(size: nat, fileSize: nat, offset: nat): nat
    requires fileSize < U64 && offset < U64
  {
    Min(size, (fileSize - offset) % U64)
  }

  /** The read is cut at the end of the file exactly when it starts inside the file or asks for nothing. */
  lemma ReadSizeIsCut(size: nat, fileSize: nat, offset: nat)
    requires fileSize < U64 && offset < U64
    ensures ReadSize(size, fileSize, offset) == Min(size, Max(0, fileSize - offset)) <==>
              offset <= fileSize || size == 0
  {
  }

  class Cache {
    const fill: nat -> Fill
    var pages: Pages
    var size: nat
    ghost var fills: seq<nat>

    /** Every cached page was filled once. */
    ghost predicate Valid()
      reads this
    {
      && FillOk(fill) && PagesOk(pages)
      && (forall p :: p in pages <==> p in fills)
      && (forall j, k :: 0 <= j < k < |fills| ==> fills[j] != fills[k])
    }

    constructor (fill: nat -> Fill, size: nat)
      requires FillOk(fill)
      ensures Valid() && this.fill == fill && this.size == size && pages == map[] && fills == []
    {
      this.fill, this.size := fill, size;
      pages, fills := map[], [];
    }

    /** `pagecache_get_page_for_read`: a miss fills the page, once. */
    method GetPage(p: nat) returns (ok: bool, isNull: bool)
      requires Valid()
      modifies this`pages, this`fills
      ensures Valid() && ok == (p in old(pages) || fill(p).Filled?)
      ensures (ok ==> p in pages) && (!ok ==> isNull == fill(p).Null?)
      ensures SameFlat(fill, old(pages), pages) && forall q :: q in old(pages) ==> q in pages
      ensures fills == if p in old(pages) || !ok then old(fills) else old(fills) + [p]
      ensures p in old(pages) || !ok ==> pages == old(pages)
      ensures forall q :: q in pages ==> q in old(pages) || q == p
    {
      if p in pages { return true, false; }
      var page := fill(p);
      if !page.Filled? { return false, page.Null?; }
      FilledSame(fill, pages, p);
      pages := pages[p := page.page];
      fills := fills + [p];
      return true, false;
    }

    /** `vfs_read_pagecache` */
    method Read(size: nat, from: nat) returns (r: ReadResult)
      requires Valid()
      modifies this`pages, this`fills
      ensures Valid() && SameFlat(fill, old(pages), pages)
      ensures r.Data? ==> r.bytes == Slice(fill, old(pages), from, size)
      ensures r.Data? <==> AllReachable(fill, old(pages), from, size)
      ensures !r.Data? ==>
                StopsAt(fill, old(pages), from, r.done) && (r.WildRead? <==> fill((from + r.done) / PAGE).Null?)
    {
      hide Flat, Slice, Touches;
      var buf: seq<byte> := [];
      var left, offset := size, from;
      SlicesEmpty(fill, pages, from);
      NothingTouched(fill, pages, from);
      while left > 0
        invariant Valid() && SameFlat(fill, old(pages), pages)
        invariant |buf| + left == size && offset == from + |buf|
        invariant buf == Slice(fill, old(pages), from, |buf|)
        invariant forall p :: Reachable(fill, pages, p) <==> Reachable(fill, old(pages), p)
        invariant AllReachable(fill, old(pages), from, |buf|)
      {
        var n := InPage(offset, left);
        TouchesMore(fill, old(pages), from, |buf|, n, size);
        ghost var before := pages;
        var ok, isNull := GetPage(offset / PAGE);
        SameFlatChains(fill, old(pages), before, pages);
        if !ok { return if isNull then WildRead(|buf|) else Failed(|buf|); }
        PageBytes(fill, pages, offset, n);
        SameSlice(fill, old(pages), pages, offset, n);
        SliceSplits(fill, old(pages), from, |buf|, n);
        buf := buf + pages[offset / PAGE][offset % PAGE..offset % PAGE + n];
        left := left - n;
        offset := offset + n;
      }
      return Data(buf);
    }

    /** `vfs_write_pagecache` with the simple begin and end hooks. */
    method Write(buf: seq<byte>, from: nat) returns (r: WriteResult)
      requires Valid()
      modifies this
      ensures Valid()
      ensures var n := if r.Written? then r.n else r.done;
              && n <= |buf| && (r.Written? ==> n == |buf|)
              && Overwritten(fill, old(pages), pages, from, buf[..n])
              && size == if n == 0 then old(size) else Max(old(size), from + n)
      ensures r.Written? <==> AllReachable(fill, old(pages), from, |buf|)
      ensures !r.Written? ==>
                StopsAt(fill, old(pages), from, r.done) && (r.Refused? <==> fill((from + r.done) / PAGE).Null?)
      ensures forall p :: Reachable(fill, pages, p) <==> Reachable(fill, old(pages), p)
    {
      hide Flat, Touches;
      var done, left, offset := 0, |buf|, from;
      OverwrittenNothing(fill, pages, from);
      NothingTouched(fill, pages, from);
      while left > 0
        invariant Valid() && 0 <= done && 0 <= left && done + left == |buf| && offset == from + done
        invariant Overwritten(fill, old(pages), pages, from, buf[..done])
        invariant size == if done == 0 then old(size) else Max(old(size), from + done)
        invariant forall p :: Reachable(fill, pages, p) <==> Reachable(fill, old(pages), p)
        invariant AllReachable(fill, old(pages), from, done)
      {
        var n := InPage(offset, left);
        TouchesMore(fill, old(pages), from, done, n, |buf|);
        var ok, isNull := WritePage(offset, buf[done..done + n]);
        ghost var x, y := buf[..done], buf[done..done + n];
        assert buf[..done + n] == x + y;
        if !ok { return if isNull then Refused(done) else WildWrite(done); }
        done := done + n;
        left := left - n;
        offset := offset + n;
      }
      assert buf[..done] == buf;
      return Written(done);
    }

    /** One page of a write: begin, copy, end. */
    method WritePage(offset: nat, data: seq<byte>) returns (ok: bool, isNull: bool)
      requires Valid() && 0 < |data| && offset % PAGE + |data| <= PAGE
      modifies this
      ensures Valid() && ok == (offset / PAGE in old(pages) || fill(offset / PAGE).Filled?)
      ensures if ok then Overwritten(fill, old(pages), pages, offset, data) && size == Max(old(size), offset + |data|)
              else pages == old(pages) && size == old(size) && isNull == fill(offset / PAGE).Null?
      ensures forall p :: Reachable(fill, pages, p) <==> Reachable(fill, old(pages), p)
      ensures forall from: nat, x: seq<byte>, a: Pages ::
                ok && PagesOk(a) && offset == from + |x| && Overwritten(fill, a, old(pages), from, x) ==>
                      Overwritten(fill, a, pages, from, x + data)
    {
      hide Flat;
      ok, isNull := GetPage(offset / PAGE);
      if !ok { return false, isNull; }
      ghost var filled := pages;
      PatchedFlat(fill, pages, offset, data);
      pages := pages[offset / PAGE := Patched(pages[offset / PAGE], offset % PAGE, data)];
      SameThenOverwritten(fill, old(pages), filled, pages, offset, data);
      if offset + |data| > size { size := offset + |data|; }
      forall from: nat, x: seq<byte>, a: Pages
        | PagesOk(a) && offset == from + |x| && Overwritten(fill, a, old(pages), from, x)
        ensures Overwritten(fill, a, pages, from, x + data)
      {
        OverwrittenChains(fill, a, old(pages), pages, from, x, data);
      }
    }

    /** `vfs_generic_read` */
    method GenericRead(want: nat, offset: nat) returns (r: ReadResult)
      requires Valid() && size < U64 && offset < U64
      modifies this`pages, this`fills
      ensures Valid() && SameFlat(fill, old(pages), pages)
      ensures r.Data? <==> AllReachable(fill, old(pages), offset, ReadSize(want, size, offset))
      ensures r.Data? ==> r.bytes == Slice(fill, old(pages), offset, ReadSize(want, size, offset))
      ensures r.Data? && offset <= size ==> r.bytes == Slice(fill, old(pages), offset, Min(want, size - offset))
      ensures !r.Data? ==>
                StopsAt(fill, old(pages), offset, r.done) && (r.WildRead? <==> fill((offset + r.done) / PAGE).Null?)
    {
      ReadSizeIsCut(want, size, offset);
      r := Read(ReadSize(want, size, offset), offset);
    }

    /** What was written is what is read back, exactly when all its pages can be had. */
    method WriteThenRead(buf: seq<byte>, offset: nat) returns (data: Option<seq<byte>>)
      requires Valid() && offset + |buf| < U64 && size < U64
      modifies this
      ensures Valid()
      ensures data.Some? <==> AllReachable(fill, old(pages), offset, |buf|)
      ensures data.Some? ==> data.value == buf
    {
      hide Flat;
      var w := Write(buf, offset);
      if !w.Written? { return None; }
      assert buf[..|buf|] == buf;
      WrittenSlice(fill, old(pages), pages, offset, buf);
      if |buf| == 0 { return Some([]); }
      var r := GenericRead(|buf|, offset);
      return Some(r.bytes);
    }
  }

  lemma SlicesEmpty(fill: nat -> Fill, pages: Pages, offset: nat)
    requires FillOk(fill) && PagesOk(pages)
    ensures Slice(fill, pages, offset, 0) == [] && SameFlat(fill, pages, pages)
  {
  }

  lemma NothingTouched(fill: nat -> Fill, pages: Pages, from: nat)
    ensures AllReachable(fill, pages, from, 0)
  {
  }

  lemma SameFlatChains(fill: nat -> Fill, a: Pages, b: Pages, c: Pages)
    requires FillOk(fill) && PagesOk(a) && PagesOk(b) && PagesOk(c) && SameFlat(fill, a, b) && SameFlat(fill, b, c)
    ensures SameFlat(fill, a, c)
  {
  }

  lemma OverwrittenNothing(fill: nat -> Fill, pages: Pages, offset: nat)
    requires FillOk(fill) && PagesOk(pages)
    ensures Overwritten(fill, pages, pages, offset, [])
  {
  }

  lemma SameThenOverwritten(fill: nat -> Fill, a: Pages, b: Pages, c: Pages, offset: nat, data: seq<byte>)
    requires FillOk(fill) && PagesOk(a) && PagesOk(b) && PagesOk(c)
    requires SameFlat(fill, a, b) && Overwritten(fill, b, c, offset, data)
    ensures Overwritten(fill, a, c, offset, data)
  {
  }

  lemma WrittenSlice(fill: nat -> Fill, a: Pages, b: Pages, offset: nat, buf: seq<byte>)
    requires FillOk(fill) && PagesOk(a) && PagesOk(b) && Overwritten(fill, a, b, offset, buf)
    ensures Slice(fill, b, offset, |buf|) == buf
  {
  }
}
