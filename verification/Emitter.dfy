/** The paged bytecode emitter: a linked list of fixed-size pages that behaves as
    one flat byte string. */
module Emitter {
  import opened Words

  type pagesize = n: nat | n > 0 witness 1

  /** Room for one chunk behind `size` bytes: the rest of the last page and one page more. */
  function Free(size: nat, page: pagesize): (n: nat)
    ensures page <= n < 2 * page
  {
    if size % page == 0 then page else 2 * page - size % page
  }

  /** Whether an emitter that holds `size` bytes takes `n` more. One without pages takes
      everything. */
  predicate Accepts(page: Option<pagesize>, size: nat, n: nat) {
    page.None? || n <= Free(size, page.value)
  }

  // ---- pages as values ----

  /** `size` bytes are stored in full pages and a used part of the last page. */
  ghost predicate Stores(full: seq<seq<byte>>, pageSize: nat, size: nat, bytes: seq<byte>) {
    && (forall i :: 0 <= i < |full| ==> |full[i]| == pageSize)
    && size <= |Flat(full)| && Flat(full)[..size] == bytes
    && (full != [] ==> |Flat(full)| - pageSize < size)
  }

  lemma {:induction false} FlatLength(full: seq<seq<byte>>, pageSize: nat)
    requires forall i :: 0 <= i < |full| ==> |full[i]| == pageSize
    ensures |Flat(full)| == |full| * pageSize
  {
    if full != [] {
      FlatLength(full[1..], pageSize);
      MulSucc(|full| - 1, pageSize);
    }
  }

  lemma MulSucc(k: nat, n: nat)
    ensures (k + 1) * n == k * n + n
  {
  }

  lemma FlatLast(full: seq<seq<byte>>)
    requires full != []
    ensures Flat(full) == Flat(full[..|full| - 1]) + full[|full| - 1]
  {
    assert full == full[..|full| - 1] + [full[|full| - 1]];
    FlatSnoc(full[..|full| - 1], full[|full| - 1]);
  }

  /** `chunk` written at `off` into a page. */
  function Patch(page: seq<byte>, off: nat, chunk: seq<byte>): seq<byte>
    requires off + |chunk| <= |page|
  {
    page[..off] + chunk + page[off + |chunk|..]
  }

  lemma StoreOnLast(full: seq<seq<byte>>, pageSize: nat, size: nat, bytes: seq<byte>, chunk: seq<byte>)
    requires Stores(full, pageSize, size, bytes) && full != [] && chunk != []
    requires size + |chunk| <= |Flat(full)|
    ensures var k, off := |full| - 1, size - (|Flat(full)| - pageSize);
            && |full[k]| == pageSize && off + |chunk| <= |full[k]|
            && Stores(full[k := Patch(full[k], off, chunk)], pageSize, size + |chunk|, bytes + chunk)
            && |Flat(full[k := Patch(full[k], off, chunk)])| == |Flat(full)|
  {
    var k, off := |full| - 1, size - (|Flat(full)| - pageSize);
    var page := Patch(full[k], off, chunk);
    FlatLast(full);
    FlatLast(full[k := page]);
    assert full[k := page][..k] == full[..k];
    assert Flat(full)[..size] == Flat(full[..k]) + full[k][..off];
    assert Flat(full[k := page])[..size + |chunk|] == Flat(full[..k]) + full[k][..off] + chunk;
  }

  lemma StoreOnNew(full: seq<seq<byte>>, pageSize: nat, size: nat, bytes: seq<byte>, page: seq<byte>, chunk: seq<byte>)
    requires Stores(full, pageSize, size, bytes) && size == |Flat(full)|
    requires |page| == pageSize && 0 < |chunk| <= pageSize && page[..|chunk|] == chunk
    ensures Stores(full + [page], pageSize, size + |chunk|, bytes + chunk)
  {
    FlatSnoc(full, page);
    assert Flat(full + [page])[..size + |chunk|] == Flat(full) + page[..|chunk|];
  }

  lemma FreeSpace(full: seq<seq<byte>>, pageSize: nat, size: nat, bytes: seq<byte>)
    requires Stores(full, pageSize, size, bytes) && full != []
    ensures 0 <= |Flat(full)| - size < pageSize
  {
  }

  /** A chunk split over the last page and a new one, `zero` before it is written. */
  lemma StoreSplit(full: seq<seq<byte>>, zero: seq<byte>, pageSize: nat, size: nat, bytes: seq<byte>, chunk: seq<byte>)
    requires Stores(full, pageSize, size, bytes) && full != [] && |zero| == pageSize
    requires size < |Flat(full)| < size + |chunk| <= |Flat(full)| + pageSize
    ensures var k, free := |full| - 1, |Flat(full)| - size;
            && free <= pageSize
            && |full[k]| == pageSize
            && (var half := (full + [zero])[k := Patch(full[k], pageSize - free, chunk[..free])];
                var all := half[k + 1 := Patch(zero, 0, chunk[free..])];
                |Flat(all)| == |Flat(full)| + pageSize && Stores(all, pageSize, size + |chunk|, bytes + chunk))
  {
    hide Stores, Patch, Flat;
    FreeSpace(full, pageSize, size, bytes);
    var k, free := |full| - 1, |Flat(full)| - size;
    StoreOnLast(full, pageSize, size, bytes, chunk[..free]);
    var half := full[k := Patch(full[k], pageSize - free, chunk[..free])];
    var page := Patch(zero, 0, chunk[free..]);
    PatchStart(zero, chunk[free..]);
    StoreOnNew(half, pageSize, size + free, bytes + chunk[..free], page, chunk[free..]);
    FlatSnoc(half, page);
    assert bytes + chunk[..free] + chunk[free..] == bytes + chunk;
    UpdateLastTwo(full, zero, Patch(full[k], pageSize - free, chunk[..free]), page);
  }

  lemma PatchStart(page: seq<byte>, chunk: seq<byte>)
    requires |chunk| <= |page|
    ensures |Patch(page, 0, chunk)| == |page| && Patch(page, 0, chunk)[..|chunk|] == chunk
  {
  }

  lemma UpdateLastTwo(full: seq<seq<byte>>, zero: seq<byte>, p: seq<byte>, q: seq<byte>)
    requires full != []
    ensures var k := |full| - 1; (full + [zero])[k := p][k + 1 := q] == full[k := p] + [q]
  {
  }

  // ---- pages in memory ----

  /** One page; `next` is the link kept behind the page's bytes. */
  class Page {
    const data: array<byte>
    var next: Page?

    constructor (size: nat)
      ensures fresh(data) && data.Length == size && next == null
    {
      data := new byte[size](_ => 0);
      next := null;
    }
  }

  /** `memcpy` into a buffer. */
  method CopyBytes(dst: array<byte>, at: nat, src: seq<byte>)
    requires at + |src| <= dst.Length
    modifies dst
    ensures dst[..] == Patch(old(dst[..]), at, src)
  {
    ghost var was := dst[..];
    for i := 0 to |src|
      invariant dst[..at + i] == was[..at] + src[..i]
      invariant dst[at + i..] == was[at + i..]
    {
      dst[at + i] := src[i];
      assert dst[..at + i + 1] == dst[..at + i] + [src[i]];
      assert src[..i + 1] == src[..i] + [src[i]];
    }
    assert src[..|src|] == src;
    assert dst[..] == dst[..at + |src|] + dst[at + |src|..];
  }

  class Buffered {
    const pageSize: pagesize
    var size: nat
    var capacity: nat
    var firstPage: Page?
    var lastPage: Page?

    ghost var pages: seq<Page>
    /** The pages' contents. */
    ghost var full: seq<seq<byte>>
    /** The chunks emitted so far. */
    ghost var log: seq<seq<byte>>

    ghost function Repr(): set<object>
      reads this`pages
    {
      {this} + Nodes() + Buffers()
    }

    ghost function Nodes(): set<object>
      reads this`pages
    {
      set p: object | p in pages
    }

    ghost function Buffers(): set<object>
      reads this`pages
    {
      set p | p in pages :: p.data
    }

    ghost predicate Separate()
      reads this`pages
    {
      && (forall p :: p in pages ==> p.data.Length == pageSize)
      && (forall i, j :: 0 <= i < j < |pages| ==> pages[i] != pages[j] && pages[i].data != pages[j].data)
    }

    ghost predicate Chained()
      reads this`pages, this`firstPage, this`lastPage, Nodes()
    {
      && (forall i :: 0 <= i < |pages| ==> pages[i].next == if i + 1 < |pages| then pages[i + 1] else null)
      && firstPage == (if pages == [] then null else pages[0])
      && lastPage == (if pages == [] then null else pages[|pages| - 1])
    }

    ghost predicate Mirrored()
      reads this`pages, this`full, Buffers()
    {
      |full| == |pages| && forall i :: 0 <= i < |pages| ==> pages[i].data[..] == full[i]
    }

    ghost predicate Linked()
      reads this`pages, this`firstPage, this`lastPage, this`full, Nodes(), Buffers()
    {
      Separate() && Chained() && Mirrored()
    }

    /** The pages hold exactly the capacity, the last one is in use, and the bytes
        stored are `bytes`. */
    ghost predicate Holds(bytes: seq<byte>)
      reads this, Nodes(), Buffers()
    {
      Linked() && capacity == |Flat(full)| && Stores(full, pageSize, size, bytes)
    }

    /** ... which are the chunks emitted so far. */
    ghost predicate Valid()
      reads this, Nodes(), Buffers()
    {
      Holds(Flat(log))
    }

    constructor (pageSize: pagesize)
      ensures Valid() && fresh(Repr()) && log == [] && this.pageSize == pageSize && size == 0
    {
      this.pageSize := pageSize;
      size, capacity := 0, 0;
      firstPage, lastPage := null, null;
      pages, full, log := [], [], [];
    }

    /** Capacity is whole pages, and all but the last page are full. */
    lemma Accounting()
      requires Valid()
      ensures capacity == |pages| * pageSize && size == |Flat(log)| <= capacity
      ensures pages != [] ==> (|pages| - 1) * pageSize < size && capacity - pageSize < size
      ensures |full| == |pages| && (capacity > 0 ==> pages != [])
    {
      FlatLength(full, pageSize);
      if pages != [] { MulSucc(|pages| - 1, pageSize); }
    }

    /** The room left depends on the size alone. */
    lemma Room()
      requires Valid()
      ensures capacity - size + pageSize == Free(|Flat(log)|, pageSize)
    {
      Accounting();
      if size == capacity {
        ModOf(|pages|, pageSize, 0);
      } else {
        Offset();
      }
    }

    /** Emitters, pages and buffers are different objects. */
    lemma Apart()
      ensures this !in Nodes() && this !in Buffers() && Nodes() !! Buffers()
    {
      forall p, q | p in pages && q in pages ensures p as object != q.data {}
    }

    lemma First()
      requires Valid()
      ensures firstPage == if |pages| > 0 then pages[0] else null
    {
    }

    lemma PageAt(k: nat)
      requires Valid() && k < |pages|
      ensures |full| == |pages| && pages[k].data.Length == pageSize && pages[k].data[..] == full[k]
      ensures pages[k].next == if k + 1 < |pages| then pages[k + 1] else null
    {
    }

    lemma Last()
      requires Linked()
      ensures if pages == [] then lastPage == null
              else lastPage == pages[|pages| - 1] && lastPage.data.Length == pageSize
    {
    }

    /** A zeroed page, linked behind the last one. */
    method AllocateNewPage()
      requires Linked()
      modifies this, lastPage
      ensures Linked() && size == old(size) && log == old(log)
      ensures |pages| == |old(pages)| + 1 && pages[..|old(pages)|] == old(pages)
      ensures lastPage == pages[|pages| - 1] && fresh(lastPage) && fresh(lastPage.data)
      ensures full == old(full) + [lastPage.data[..]]
      ensures capacity == old(capacity) + pageSize
    {
      var page := new Page(pageSize);
      if lastPage != null {
        lastPage.next := page;
      }
      lastPage := page;
      capacity := capacity + pageSize;
      if firstPage == null {
        firstPage := page;
      }
      pages := pages + [page];
      full := full + [page.data[..]];
    }

    /** Bytes written into page `k`. */
    method Write(p: Page, ghost k: nat, off: nat, bytes: seq<byte>)
      requires Linked() && k < |pages| && p == pages[k] && off + |bytes| <= pageSize
      modifies this`full, p.data
      ensures Linked() && full == old(full)[k := Patch(old(full)[k], off, bytes)]
    {
      hide Patch;
      CopyBytes(p.data, off, bytes);
      full := full[k := p.data[..]];
      forall i | 0 <= i < |pages| ensures pages[i].data[..] == full[i] {
        if i != k { assert pages[i].data != p.data; }
      }
      Apart();
    }

    /** A chunk goes to the last page, to a new one, or is split over the two. One
        page is added at most; `ok` is false for a chunk that one more page cannot
        hold, which the source writes beyond the page's end. */
    method Emit(chunk: seq<byte>) returns (ok: bool)
      requires Valid()
      modifies Repr()
      ensures Valid() && fresh(Repr() - old(Repr()))
      ensures ok <==> |chunk| <= Free(|Flat(old(log))|, pageSize)
      ensures log == if ok then old(log) + [chunk] else old(log)
    {
      hide Stores, Separate, Chained, Mirrored, Free;
      Accounting();
      Room();
      var n := |chunk|;
      if n > capacity - size + pageSize {
        return false;
      }
      if size + n > capacity {
        if size < capacity {
          Split(chunk);
        } else {
          OnNewPage(chunk);
        }
      } else if n > 0 {
        OnLastPage(chunk);
      } else {
        assert Flat(log) + chunk == Flat(log);
      }
      FlatSnoc(log, chunk);
      log := log + [chunk];
      ok := true;
    }

    method OnLastPage(chunk: seq<byte>)
      requires Valid() && chunk != [] && size + |chunk| <= capacity
      modifies Repr()
      ensures Holds(Flat(log) + chunk) && log == old(log) && pages == old(pages)
    {
      hide Stores, Separate, Chained, Mirrored, Patch;
      ghost var k := |pages| - 1;
      Accounting();
      Last();
      Offset();
      StoreOnLast(full, pageSize, size, Flat(log), chunk);
      Write(lastPage, k, size % pageSize, chunk);
      size := size + |chunk|;
    }

    /** The normal write finds its place by the size modulo the page size. */
    lemma Offset()
      requires Valid() && pages != [] && size < capacity
      ensures size % pageSize == size - (capacity - pageSize)
    {
      Accounting();
      ModOf(|pages| - 1, pageSize, size - (|pages| - 1) * pageSize);
      MulSucc(|pages| - 1, pageSize);
    }

    method OnNewPage(chunk: seq<byte>)
      requires Valid() && chunk != [] && size == capacity && |chunk| <= pageSize
      modifies Repr()
      ensures Holds(Flat(log) + chunk) && log == old(log)
      ensures fresh(Repr() - old(Repr()))
    {
      hide Stores, Separate, Chained, Mirrored;
      ghost var before := full;
      Accounting();
      Last();
      ModOf(|pages|, pageSize, 0);
      AllocateNewPage();
      Last();
      ghost var k := |before|;
      Write(lastPage, k, size % pageSize, chunk);
      Apart();
      size := size + |chunk|;
      assert full == before + [full[k]];
      StoreOnNew(before, pageSize, old(size), Flat(log), full[k], chunk);
      FlatSnoc(before, full[k]);
    }

    method Split(chunk: seq<byte>)
      requires Valid() && size < capacity < size + |chunk| <= capacity + pageSize
      modifies Repr()
      ensures Holds(Flat(log) + chunk) && log == old(log)
      ensures fresh(Repr() - old(Repr()))
    {
      hide Stores, Separate, Chained, Mirrored, Patch;
      ghost var before, k := full, |full| - 1;
      Accounting();
      Last();
      var prevPage, free := lastPage, capacity - size;
      AllocateNewPage();
      Last();
      StoreSplit(before, full[k + 1], pageSize, size, Flat(log), chunk);
      Write(prevPage, k, pageSize - free, chunk[..free]);
      Write(lastPage, k + 1, 0, chunk[free..]);
      Apart();
      size := size + |chunk|;
    }

    /** Half way through the pages: the first `k` are copied, `left` bytes remain. */
    ghost predicate Sinking(k: nat, page: Page?, ptr: nat, left: nat, dst: array<byte>, at: nat, was: seq<byte>)
      reads this, Repr(), dst
    {
      && Valid() && dst !in Repr() && k <= |pages| && left <= size == |Flat(log)|
      && at + size <= |was| && dst[..] == Patch(was, at, Flat(log)[..size - left])
      && page == (if k < |pages| then pages[k] else null)
      && (left > 0 ==> size - left == |Flat(full[..k])| && ptr == at + size - left)
    }

    method SinkPage(page: Page, ptr: nat, left: nat, ghost k: nat, dst: array<byte>, ghost at: nat,
                    ghost was: seq<byte>)
      returns (page': Page?, ptr': nat, left': nat)
      requires left > 0 && Sinking(k, page, ptr, left, dst, at, was)
      modifies dst
      ensures left' < left && Sinking(k + 1, page', ptr', left', dst, at, was)
    {
      hide Valid, Patch;
      SinkingPage(k, page, ptr, left, dst, at, was);
      var amount := if left > pageSize then pageSize else left;
      CopyBytes(dst, ptr, page.data[..amount]);
      PatchOn(was, at, Flat(log), size - left, amount);
      page', ptr', left' := page.next, ptr + pageSize, left - amount;
    }

    /** The page to copy next, and what it holds. */
    lemma SinkingPage(k: nat, page: Page?, ptr: nat, left: nat, dst: array<byte>, at: nat, was: seq<byte>)
      requires left > 0 && Sinking(k, page, ptr, left, dst, at, was)
      ensures page != null && page.data.Length == pageSize > 0 && k < |pages| && page == pages[k]
      ensures page.next == if k + 1 < |pages| then pages[k + 1] else null
      ensures |dst[..]| == |was|
      ensures var amount, done := if left > pageSize then pageSize else left, size - left;
              && page.data[..amount] == Flat(log)[done..done + amount]
              && |Flat(full[..k + 1])| == done + pageSize
    {
      Accounting();
      PageSlice(full, pageSize, size, Flat(log), k);
      PageAt(k);
    }

    /** Copies the bytes out, page by page along the links. The limit given by the
        caller is not looked at. */
    method Sink(dst: array<byte>, at: nat, maxSize: nat) returns (n: nat)
      requires Valid() && at + size <= dst.Length && dst !in Repr()
      modifies dst
      ensures dst[..] == Patch(old(dst[..]), at, Flat(log))
      ensures n == if size == 0 then 0 else maxSize
    {
      hide Valid, Patch, Sinking;
      ghost var was := dst[..];
      SinkingStart(dst, at);
      if size == 0 {
        SinkingEnd(0, firstPage, at, dst, at, was);
        return 0;
      }
      var page, ptr, left := firstPage, at, size;
      ghost var k := 0;
      while left > 0
        invariant Sinking(k, page, ptr, left, dst, at, was)
      {
        SinkingPage(k, page, ptr, left, dst, at, was);
        page, ptr, left := SinkPage(page, ptr, left, k, dst, at, was);
        k := k + 1;
      }
      SinkingEnd(k, page, ptr, dst, at, was);
      n := maxSize;
    }

    lemma SinkingStart(dst: array<byte>, at: nat)
      requires Valid() && at + size <= dst.Length && dst !in Repr()
      ensures Sinking(0, firstPage, at, size, dst, at, dst[..])
    {
      Accounting();
      First();
      PrefixStart(full, dst[..], at, Flat(log));
    }

    lemma SinkingEnd(k: nat, page: Page?, ptr: nat, dst: array<byte>, at: nat, was: seq<byte>)
      requires Sinking(k, page, ptr, 0, dst, at, was)
      ensures dst[..] == Patch(was, at, Flat(log))
    {
      hide Patch, Valid;
      assert Flat(log)[..size] == Flat(log);
    }
  }

  lemma PrefixStart(full: seq<seq<byte>>, was: seq<byte>, at: nat, bytes: seq<byte>)
    requires at <= |was|
    ensures Flat(full[..0]) == [] && Patch(was, at, bytes[..0]) == was
  {
  }

  /** The used part of page `k` is the next piece of the bytes. */
  lemma PageSlice(full: seq<seq<byte>>, pageSize: nat, size: nat, bytes: seq<byte>, k: nat)
    requires Stores(full, pageSize, size, bytes) && pageSize > 0 && k <= |full| && |Flat(full[..k])| < size
    ensures var f := |Flat(full[..k])|;
            var amount := if size - f > pageSize then pageSize else size - f;
            && k < |full| && |full[k]| == pageSize && |bytes| == size
            && full[k][..amount] == bytes[f..f + amount]
            && |Flat(full[..k + 1])| == f + pageSize
  {
    assert full[..|full|] == full;
    if k < |full| {
      var f := |Flat(full[..k])|;
      assert full[..k + 1] == full[..k] + [full[k]];
      FlatSnoc(full[..k], full[k]);
      assert full == full[..k + 1] + full[k + 1..];
      FlatAppend(full[..k + 1], full[k + 1..]);
      assert Flat(full)[f..f + pageSize] == full[k];
    }
  }

  lemma PatchOn(was: seq<byte>, at: nat, bytes: seq<byte>, done: nat, amount: nat)
    requires done + amount <= |bytes| && at + |bytes| <= |was|
    ensures Patch(Patch(was, at, bytes[..done]), at + done, bytes[done..done + amount])
         == Patch(was, at, bytes[..done + amount])
  {
  }
}
