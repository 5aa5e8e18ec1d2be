/**
 * Pinning a user buffer and describing it to the host as a list of
 * (physical address, length) descriptors, merging physically adjacent
 * pages (pin_user_pages and populate_rw_params).
 *
 * Pinned pages are given by their physical addresses, in order; the
 * kernel's get_user_pages_fast is an oracle that reports how many pages
 * it pinned (or a negative error).
 */
module ScatterGather {
  import opened PipeAbi

  /** The outcome of pin_user_pages. */
  datatype PinResult = PinFault(err: int) | Pinned(count: nat, iterLastPageSize: nat)

  /** One buffer descriptor of a READ/WRITE command. */
  datatype Desc = Desc(ptr: nat, size: nat)

  /**
   * The part of a user buffer a single command transfers: the current
   * address, the end of the whole buffer, the pages holding the current
   * address and the last byte, and the byte count used for the last
   * pinned page.
   */
  datatype Chunk = Chunk(address: nat, addressEnd: nat, firstPage: nat, lastPage: nat, iterLastPageSize: nat)

  /** `((last_page - first_page) >> PAGE_SHIFT) + 1`: pages from first_page through last_page. */
  function SpannedPages(firstPage: nat, lastPage: nat): nat
    requires firstPage <= lastPage
  {
    (lastPage - firstPage) / PAGE_SIZE + 1
  }

  /** The number of pages pin_user_pages asks for: the span, capped. */
  function RequestedPages(firstPage: nat, lastPage: nat): (n: nat)
    requires firstPage <= lastPage
    ensures 1 <= n <= MAX_BUFFERS_PER_COMMAND
    ensures n <= SpannedPages(firstPage, lastPage)
    ensures n < SpannedPages(firstPage, lastPage) ==> n == MAX_BUFFERS_PER_COMMAND
  {
    var spanned := SpannedPages(firstPage, lastPage);
    if spanned > MAX_BUFFERS_PER_COMMAND then MAX_BUFFERS_PER_COMMAND else spanned
  }

  /**
   * pin_user_pages: `gup` is what get_user_pages_fast returned for the
   * request. A result <= 0 is a fault; otherwise the pinned count is
   * returned, and the last pinned page is used in full unless the request
   * reached last_page.
   */
  function PinUserPages(firstPage: nat, lastPage: nat, lastPageSize: nat, gup: int): (r: PinResult)
    requires firstPage <= lastPage
    ensures r.PinFault? <==> gup <= 0
    ensures r.PinFault? ==> r.err == -EFAULT
    ensures r.Pinned? ==> r.count == gup
    ensures r.Pinned? && (SpannedPages(firstPage, lastPage) > MAX_BUFFERS_PER_COMMAND
                          || gup < RequestedPages(firstPage, lastPage))
            ==> r.iterLastPageSize == PAGE_SIZE
    ensures r.Pinned? && SpannedPages(firstPage, lastPage) <= MAX_BUFFERS_PER_COMMAND
            && gup >= SpannedPages(firstPage, lastPage)
            ==> r.iterLastPageSize == lastPageSize
  {
    var requested := RequestedPages(firstPage, lastPage);
    var iterLast := if SpannedPages(firstPage, lastPage) > MAX_BUFFERS_PER_COMMAND then PAGE_SIZE else lastPageSize;
    if gup <= 0 then PinFault(-EFAULT)
    else if gup < requested then Pinned(gup, PAGE_SIZE)
    else Pinned(gup, iterLast)
  }

  /** get_user_pages_fast never pins more than it was asked for, so neither does a pin. */
  lemma PinnedWithinCap(firstPage: nat, lastPage: nat, lastPageSize: nat, gup: int)
    requires firstPage <= lastPage && gup <= RequestedPages(firstPage, lastPage)
    ensures PinUserPages(firstPage, lastPage, lastPageSize, gup).Pinned? ==>
              1 <= PinUserPages(firstPage, lastPage, lastPageSize, gup).count <= MAX_BUFFERS_PER_COMMAND
  {
  }

  /** Bytes of the first page: up to the end of the buffer if it is also the last page, else to the page end. */
  function FirstPageBytes(c: Chunk): nat
    requires c.address < c.addressEnd
  {
    if c.firstPage == c.lastPage then c.addressEnd - c.address else PAGE_SIZE - PageOffset(c.address)
  }

  /** The byte count page i of `count` pinned pages contributes. */
  function PageByteCount(c: Chunk, count: nat, i: nat): nat
    requires c.address < c.addressEnd
  {
    if i == 0 then FirstPageBytes(c) else if i == count - 1 then c.iterLastPageSize else PAGE_SIZE
  }

  /** The byte counts of all `count` pinned pages, in order. */
  function PageBytes(c: Chunk, count: nat): (s: seq<nat>)
    requires c.address < c.addressEnd
    ensures |s| == count
    ensures forall i :: 0 <= i < count ==> s[i] == PageByteCount(c, count, i)
  {
    seq(count, i requires 0 <= i < count => PageByteCount(c, count, i))
  }

  /** Page i of the pinned sequence directly follows page i - 1 in physical memory. */
  predicate Adjacent(pages: seq<nat>, i: nat)
    requires 1 <= i < |pages|
  {
    pages[i] == pages[i - 1] + PAGE_SIZE
  }

  /**
   * The merging walk of populate_rw_params over the first n pinned pages:
   * the first descriptor starts at ptr0, each following page extends the
   * current descriptor when it is adjacent to the previous page and opens
   * a new one otherwise.
   */
  function Merge(pages: seq<nat>, sizes: seq<nat>, ptr0: nat, n: nat): (ds: seq<Desc>)
    requires 1 <= n <= |pages| == |sizes|
    ensures 1 <= |ds| <= n
  {
    if n == 1 then [Desc(ptr0, sizes[0])]
    else
      var prev := Merge(pages, sizes, ptr0, n - 1);
      var last := prev[|prev| - 1];
      if Adjacent(pages, n - 1) then prev[|prev| - 1 := Desc(last.ptr, last.size + sizes[n - 1])]
      else prev + [Desc(pages[n - 1], sizes[n - 1])]
  }

  /** The descriptors populate_rw_params writes for the pinned pages of chunk c. */
  function Descriptors(pages: seq<nat>, c: Chunk): seq<Desc>
    requires 1 <= |pages| && c.address < c.addressEnd
  {
    Merge(pages, PageBytes(c, |pages|), pages[0] + PageOffset(c.address), |pages|)
  }

  /**
   * The indices, among the first n pages, of the pages that begin a
   * maximal run of physically adjacent pages.
   */
  function RunStarts(pages: seq<nat>, n: nat): (st: seq<nat>)
    requires 1 <= n <= |pages|
    ensures 1 <= |st| <= n && st[0] == 0
    ensures forall k :: 0 <= k < |st| ==> st[k] < n
    ensures forall k, m :: 0 <= k < m < |st| ==> st[k] < st[m]
  {
    if n == 1 then [0]
    else if Adjacent(pages, n - 1) then RunStarts(pages, n - 1)
    else RunStarts(pages, n - 1) + [n - 1]
  }

  /**
   * RunStarts lists page 0 and exactly those pages that are not adjacent
   * to their predecessor: a run is maximal.
   */
  lemma {:induction false} RunStartsAreBreaks(pages: seq<nat>, n: nat)
    requires 1 <= n <= |pages|
    ensures forall i :: 1 <= i < n ==> (i in RunStarts(pages, n) <==> !Adjacent(pages, i))
  {
    if n > 1 {
      RunStartsAreBreaks(pages, n - 1);
    }
  }

  /** Where run k of the starts `st` ends (exclusive) among n pages. */
  function RunEnd(st: seq<nat>, k: nat, n: nat): nat
    requires k < |st|
  {
    if k + 1 < |st| then st[k + 1] else n
  }

  /** s[a] + ... + s[b - 1]. */
  function SumRange(s: seq<nat>, a: nat, b: nat): nat
    requires a <= b <= |s|
    decreases b - a
  {
    if a == b then 0 else SumRange(s, a, b - 1) + s[b - 1]
  }

  /** The total length of the first m descriptors. */
  function DescBytes(ds: seq<Desc>, m: nat): nat
    requires m <= |ds|
  {
    if m == 0 then 0 else DescBytes(ds, m - 1) + ds[m - 1].size
  }

  /**
   * ds describes the runs starting at st among n pages: descriptor k
   * begins where run k begins (the first one at ptr0) and its length is
   * the sum of the byte counts of that run's pages.
   */
  ghost predicate DescribesRuns(ds: seq<Desc>, st: seq<nat>, pages: seq<nat>, sizes: seq<nat>, ptr0: nat, n: nat)
    requires n <= |pages| == |sizes|
  {
    && 1 <= |ds| == |st|
    && (forall k :: 0 <= k < |st| ==> st[k] < n)
    && (forall k, m :: 0 <= k < m < |st| ==> st[k] < st[m])
    && ds[0].ptr == ptr0
    && (forall k :: 1 <= k < |ds| ==> ds[k].ptr == pages[st[k]])
    && (forall k :: 0 <= k < |ds| ==> ds[k].size == SumRange(sizes, st[k], RunEnd(st, k, n)))
  }

  /** Page n - 1 extends the last run: the last descriptor grows by its bytes. */
  lemma ExtendRun(prev: seq<Desc>, st: seq<nat>, pages: seq<nat>, sizes: seq<nat>, ptr0: nat, n: nat)
    requires 2 <= n <= |pages| == |sizes|
    requires DescribesRuns(prev, st, pages, sizes, ptr0, n - 1)
    ensures var m := |prev| - 1;
      DescribesRuns(prev[m := Desc(prev[m].ptr, prev[m].size + sizes[n - 1])], st, pages, sizes, ptr0, n)
  {
    var m := |prev| - 1;
    var ds := prev[m := Desc(prev[m].ptr, prev[m].size + sizes[n - 1])];
    forall k | 0 <= k < |ds|
      ensures ds[k].size == SumRange(sizes, st[k], RunEnd(st, k, n))
    {
      if k < m {
        assert RunEnd(st, k, n) == RunEnd(st, k, n - 1);
      } else {
        assert RunEnd(st, k, n) == n && RunEnd(st, k, n - 1) == n - 1;
      }
    }
  }

  /** Page n - 1 opens a new run: a new descriptor for it alone is appended. */
  lemma OpenRun(prev: seq<Desc>, pst: seq<nat>, pages: seq<nat>, sizes: seq<nat>, ptr0: nat, n: nat)
    requires 2 <= n <= |pages| == |sizes|
    requires DescribesRuns(prev, pst, pages, sizes, ptr0, n - 1)
    ensures DescribesRuns(prev + [Desc(pages[n - 1], sizes[n - 1])], pst + [n - 1], pages, sizes, ptr0, n)
  {
    var ds, st := prev + [Desc(pages[n - 1], sizes[n - 1])], pst + [n - 1];
    var m := |prev| - 1;
    forall k | 0 <= k < |ds|
      ensures ds[k].size == SumRange(sizes, st[k], RunEnd(st, k, n))
    {
      if k <= m {
        assert ds[k] == prev[k] && st[k] == pst[k];
        assert RunEnd(st, k, n) == RunEnd(pst, k, n - 1);
      } else {
        assert SumRange(sizes, n - 1, n) == SumRange(sizes, n - 1, n - 1) + sizes[n - 1];
      }
    }
  }

  /**
   * Merging yields exactly one descriptor per maximal run of adjacent
   * pages (RunStarts), each starting where its run starts and as long as
   * the pages of its run.
   */
  lemma {:induction false} MergeIsRuns(pages: seq<nat>, sizes: seq<nat>, ptr0: nat, n: nat)
    requires 1 <= n <= |pages| == |sizes|
    ensures DescribesRuns(Merge(pages, sizes, ptr0, n), RunStarts(pages, n), pages, sizes, ptr0, n)
  {
    if n == 1 {
      assert SumRange(sizes, 0, 1) == SumRange(sizes, 0, 0) + sizes[0];
    } else {
      var prev, pst := Merge(pages, sizes, ptr0, n - 1), RunStarts(pages, n - 1);
      var m := |prev| - 1;
      if Adjacent(pages, n - 1) {
        assert Merge(pages, sizes, ptr0, n) == prev[m := Desc(prev[m].ptr, prev[m].size + sizes[n - 1])];
        assert RunStarts(pages, n) == pst;
        MergeIsRuns(pages, sizes, ptr0, n - 1);
        ExtendRun(prev, pst, pages, sizes, ptr0, n);
      } else {
        assert Merge(pages, sizes, ptr0, n) == prev + [Desc(pages[n - 1], sizes[n - 1])];
        assert RunStarts(pages, n) == pst + [n - 1];
        MergeIsRuns(pages, sizes, ptr0, n - 1);
        OpenRun(prev, pst, pages, sizes, ptr0, n);
      }
    }
  }

  /** Merging the first n pages neither loses nor invents bytes. */
  lemma {:induction false} MergeKeepsBytes(pages: seq<nat>, sizes: seq<nat>, ptr0: nat, n: nat)
    requires 1 <= n <= |pages| == |sizes|
    ensures var ds := Merge(pages, sizes, ptr0, n); DescBytes(ds, |ds|) == SumRange(sizes, 0, n)
  {
    if n == 1 {
      assert SumRange(sizes, 0, 1) == SumRange(sizes, 0, 0) + sizes[0];
    } else {
      MergeKeepsBytes(pages, sizes, ptr0, n - 1);
      var prev := Merge(pages, sizes, ptr0, n - 1);
      var ds := Merge(pages, sizes, ptr0, n);
      var m := |prev| - 1;
      DescBytesPrefix(ds, prev, m);
      if !Adjacent(pages, n - 1) {
        assert DescBytes(ds, m + 1) == DescBytes(prev, m + 1);
      }
    }
  }

  /** Two descriptor lists that agree on their first m entries have the same total over them. */
  lemma {:induction false} DescBytesPrefix(ds: seq<Desc>, es: seq<Desc>, m: nat)
    requires m <= |ds| && m <= |es|
    requires forall k :: 0 <= k < m ==> ds[k] == es[k]
    ensures DescBytes(ds, m) == DescBytes(es, m)
  {
    if m > 0 {
      DescBytesPrefix(ds, es, m - 1);
    }
  }

  /** The sum of n page byte counts whose first is a, last is b and the rest full pages. */
  lemma {:induction false} SumOfFrame(s: seq<nat>, n: nat, a: nat, b: nat)
    requires 2 <= n <= |s| && s[0] == a && s[n - 1] == b
    requires forall i :: 0 < i < n - 1 ==> s[i] == PAGE_SIZE
    ensures SumRange(s, 0, n) == a + (n - 2) * PAGE_SIZE + b
  {
    if n == 2 {
      assert SumRange(s, 0, 1) == SumRange(s, 0, 0) + a;
    } else {
      SumOfFrame(s, n - 1, a, PAGE_SIZE);
    }
  }

  /**
   * When every page from the first to the last of a buffer is pinned by a
   * single command, the per-page byte counts add up to exactly the length
   * of the buffer.
   */
  lemma WholeBufferBytes(address: nat, addressEnd: nat, count: nat)
    requires address < addressEnd
    requires count == SpannedPages(PageOf(address), PageOf(addressEnd - 1))
    ensures var c := Chunk(address, addressEnd, PageOf(address), PageOf(addressEnd - 1), PageOffset(addressEnd - 1) + 1);
      SumRange(PageBytes(c, count), 0, count) == addressEnd - address
  {
    PageOfMonotone(address, addressEnd - 1);
    var first, last := PageOf(address), PageOf(addressEnd - 1);
    var c := Chunk(address, addressEnd, first, last, PageOffset(addressEnd - 1) + 1);
    var s := PageBytes(c, count);
    var span := last - first;
    assert span % PAGE_SIZE == 0 by {
      assert first == (address / PAGE_SIZE) * PAGE_SIZE;
      assert last == ((addressEnd - 1) / PAGE_SIZE) * PAGE_SIZE;
      assert span == ((addressEnd - 1) / PAGE_SIZE - address / PAGE_SIZE) * PAGE_SIZE;
    }
    assert (count - 1) * PAGE_SIZE == span;
    assert s[0] == FirstPageBytes(c);
    if count == 1 {
      assert first == last;
      assert SumRange(s, 0, 1) == SumRange(s, 0, 0) + s[0];
    } else {
      assert first != last;
      assert s[count - 1] == PageOffset(addressEnd - 1) + 1;
      SumOfFrame(s, count, PAGE_SIZE - PageOffset(address), PageOffset(addressEnd - 1) + 1);
      assert (count - 2) * PAGE_SIZE == span - PAGE_SIZE;
    }
  }

  /**
   * The descriptors of a fully pinned buffer start at the buffer's
   * in-page offset within the first pinned page and cover exactly its
   * length.
   */
  lemma DescriptorsCoverBuffer(pages: seq<nat>, address: nat, addressEnd: nat)
    requires address < addressEnd && 1 <= |pages|
    requires |pages| == SpannedPages(PageOf(address), PageOf(addressEnd - 1))
    ensures var c := Chunk(address, addressEnd, PageOf(address), PageOf(addressEnd - 1), PageOffset(addressEnd - 1) + 1);
      var ds := Descriptors(pages, c);
      ds[0].ptr == pages[0] + PageOffset(address) && DescBytes(ds, |ds|) == addressEnd - address
  {
    PageOfMonotone(address, addressEnd - 1);
    var c := Chunk(address, addressEnd, PageOf(address), PageOf(addressEnd - 1), PageOffset(addressEnd - 1) + 1);
    var bytes, ptr0 := PageBytes(c, |pages|), pages[0] + PageOffset(address);
    MergeKeepsBytes(pages, bytes, ptr0, |pages|);
    MergeIsRuns(pages, bytes, ptr0, |pages|);
    WholeBufferBytes(address, addressEnd, |pages|);
  }

  /**
   * populate_rw_params: fills ptrs/sizes of the command with the merged
   * descriptors of the pinned pages and returns buffers_count. Physical
   * page addresses are page aligned, so `xaddr | offset` is `xaddr + offset`.
   */
  method PopulateRwParams(pages: seq<nat>, c: Chunk, ptrs: array<nat>, sizes: array<nat>)
    returns (buffersCount: nat)
    requires 1 <= |pages| <= MAX_BUFFERS_PER_COMMAND && c.address < c.addressEnd
    requires forall i :: 0 <= i < |pages| ==> pages[i] % PAGE_SIZE == 0
    requires ptrs.Length == MAX_BUFFERS_PER_COMMAND && sizes.Length == MAX_BUFFERS_PER_COMMAND && ptrs != sizes
    modifies ptrs, sizes
    ensures var ds := Descriptors(pages, c);
      buffersCount == |ds| && Holds(ptrs, sizes, ds)
    ensures forall k :: buffersCount <= k < MAX_BUFFERS_PER_COMMAND ==> ptrs[k] == old(ptrs[k]) && sizes[k] == old(sizes[k])
  {
    ghost var bytes := PageBytes(c, |pages|);
    ghost var ptr0 := pages[0] + PageOffset(c.address);
    var xaddr := pages[0];
    var xaddrPrev := xaddr;
    var bufferIdx := 0;
    var sizeOnPage := if c.firstPage == c.lastPage then c.addressEnd - c.address else PAGE_SIZE - PageOffset(c.address);
    ptrs[0] := xaddr + PageOffset(c.address);
    sizes[0] := sizeOnPage;
    var i := 1;
    assert bytes[0] == sizeOnPage;
    ghost var ds := [Desc(ptr0, sizeOnPage)];
    while i < |pages|
      invariant 1 <= i <= |pages|
      invariant xaddrPrev == pages[i - 1]
      invariant ds == Merge(pages, bytes, ptr0, i)
      invariant bufferIdx + 1 == |ds| <= i
      invariant Holds(ptrs, sizes, ds)
      invariant forall k :: bufferIdx < k < MAX_BUFFERS_PER_COMMAND ==> ptrs[k] == old(ptrs[k]) && sizes[k] == old(sizes[k])
    {
      xaddr := pages[i];
      sizeOnPage := if i == |pages| - 1 then c.iterLastPageSize else PAGE_SIZE;
      bufferIdx, ds := AddPage(pages, bytes, ptr0, ptrs, sizes, i, bufferIdx, ds, xaddrPrev, xaddr, sizeOnPage);
      xaddrPrev := xaddr;
      i := i + 1;
    }
    buffersCount := bufferIdx + 1;
  }

  /** The first |ds| entries of ptrs and sizes hold the descriptors ds. */
  ghost predicate Holds(ptrs: array<nat>, sizes: array<nat>, ds: seq<Desc>)
    reads ptrs, sizes
  {
    |ds| <= ptrs.Length && |ds| <= sizes.Length
    && forall k :: 0 <= k < |ds| ==> ptrs[k] == ds[k].ptr && sizes[k] == ds[k].size
  }

  /** The merge step of populate_rw_params: the page's bytes are added to the current descriptor. */
  method ExtendLast(ptrs: array<nat>, sizes: array<nat>, ghost ds: seq<Desc>, idx: nat, add: nat) returns (ghost ds': seq<Desc>)
    requires ptrs != sizes && |ds| == idx + 1 && Holds(ptrs, sizes, ds)
    modifies sizes
    ensures ds' == ds[idx := Desc(ds[idx].ptr, ds[idx].size + add)]
    ensures Holds(ptrs, sizes, ds')
    ensures forall k :: 0 <= k < sizes.Length && k != idx ==> sizes[k] == old(sizes[k])
  {
    sizes[idx] := sizes[idx] + add;
    ds' := ds[idx := Desc(ds[idx].ptr, ds[idx].size + add)];
  }

  /** The other step of populate_rw_params: the page opens descriptor idx. */
  method OpenNext(ptrs: array<nat>, sizes: array<nat>, ghost ds: seq<Desc>, idx: nat, ptr: nat, size: nat) returns (ghost ds': seq<Desc>)
    requires ptrs != sizes && |ds| == idx && idx < ptrs.Length && idx < sizes.Length && Holds(ptrs, sizes, ds)
    modifies ptrs, sizes
    ensures ds' == ds + [Desc(ptr, size)]
    ensures Holds(ptrs, sizes, ds')
    ensures forall k :: 0 <= k < ptrs.Length && k != idx ==> ptrs[k] == old(ptrs[k])
    ensures forall k :: 0 <= k < sizes.Length && k != idx ==> sizes[k] == old(sizes[k])
  {
    ptrs[idx] := ptr;
    sizes[idx] := size;
    ds' := ds + [Desc(ptr, size)];
  }

  /** One more page either grows the last descriptor or opens a new one. */
  lemma MergeStep(pages: seq<nat>, sizes: seq<nat>, ptr0: nat, n: nat)
    requires 2 <= n <= |pages| == |sizes|
    ensures var prev := Merge(pages, sizes, ptr0, n - 1);
      var last := prev[|prev| - 1];
      Merge(pages, sizes, ptr0, n) ==
        if pages[n - 1] == pages[n - 2] + PAGE_SIZE then prev[|prev| - 1 := Desc(last.ptr, last.size + sizes[n - 1])]
        else prev + [Desc(pages[n - 1], sizes[n - 1])]
  {
  }

  /**
   * One pass of the loop of populate_rw_params for page i: an adjacent
   * page grows the current descriptor, any other opens the next one.
   */
  method AddPage(pages: seq<nat>, ghost bytes: seq<nat>, ghost ptr0: nat, ptrs: array<nat>, sizes: array<nat>,
                 i: nat, bufferIdx: nat, ghost ds: seq<Desc>, xaddrPrev: nat, xaddr: nat, sizeOnPage: nat)
    returns (bufferIdx': nat, ghost ds': seq<Desc>)
    requires 1 <= i < |pages| == |bytes| && |pages| <= ptrs.Length && |pages| <= sizes.Length && ptrs != sizes
    requires xaddrPrev == pages[i - 1] && xaddr == pages[i] && sizeOnPage == bytes[i]
    requires ds == Merge(pages, bytes, ptr0, i) && bufferIdx + 1 == |ds| && Holds(ptrs, sizes, ds)
    modifies ptrs, sizes
    ensures ds' == Merge(pages, bytes, ptr0, i + 1) && bufferIdx' + 1 == |ds'| && Holds(ptrs, sizes, ds')
    ensures forall k :: bufferIdx' < k < ptrs.Length ==> ptrs[k] == old(ptrs[k])
    ensures forall k :: bufferIdx' < k < sizes.Length ==> sizes[k] == old(sizes[k])
  {
    MergeStep(pages, bytes, ptr0, i + 1);
    if xaddr == xaddrPrev + PAGE_SIZE {
      bufferIdx' := bufferIdx;
      ds' := ExtendLast(ptrs, sizes, ds, bufferIdx, sizeOnPage);
    } else {
      bufferIdx' := bufferIdx + 1;
      ds' := OpenNext(ptrs, sizes, ds, bufferIdx', xaddr, sizeOnPage);
    }
  }
}
