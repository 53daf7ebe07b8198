/** List helpers shared by the back-office screens: an order-preserving
    filter, the page slice `list.slice((page - 1) * perPage, page * perPage)`
    and the page counts, and fixed-size chunking. */
module Listing {

  /** a keeps some of b's elements, in b's order. */
  predicate SubsequenceOf<T(==)>(a: seq<T>, b: seq<T>)
    decreases |b|
  {
    if a == [] then true
    else if b == [] then false
    else (a[0] == b[0] && SubsequenceOf(a[1..], b[1..])) || SubsequenceOf(a, b[1..])
  }

  lemma {:induction false} SubsequenceOfSelf<T>(a: seq<T>)
    ensures SubsequenceOf(a, a)
    decreases |a|
  {
    if a != [] {
      SubsequenceOfSelf(a[1..]);
    }
  }

  /** Keeping some of what was kept keeps some of the original, in order. */
  lemma {:induction false} SubsequenceTrans<T>(a: seq<T>, b: seq<T>, c: seq<T>)
    requires SubsequenceOf(a, b) && SubsequenceOf(b, c)
    ensures SubsequenceOf(a, c)
    decreases |c|
  {
    if a != [] {
      if b[0] == c[0] && SubsequenceOf(b[1..], c[1..]) {
        if a[0] == b[0] && SubsequenceOf(a[1..], b[1..]) {
          SubsequenceTrans(a[1..], b[1..], c[1..]);
        } else {
          SubsequenceTrans(a, b[1..], c[1..]);
        }
      } else {
        SubsequenceTrans(a, b, c[1..]);
      }
    }
  }

  /** `xs.filter(keep)`. */
  function Filter<T>(xs: seq<T>, keep: T -> bool): (r: seq<T>)
    ensures |r| <= |xs|
    ensures forall x | x in r :: x in xs && keep(x)
    ensures forall i | 0 <= i < |xs| && keep(xs[i]) :: xs[i] in r
    ensures (forall i | 0 <= i < |xs| :: keep(xs[i])) ==> r == xs
    decreases |xs|
  {
    if xs == [] then []
    else if keep(xs[0]) then [xs[0]] + Filter(xs[1..], keep)
    else Filter(xs[1..], keep)
  }

  lemma {:induction false} FilterIsSubsequence<T>(xs: seq<T>, keep: T -> bool)
    ensures SubsequenceOf(Filter(xs, keep), xs)
    decreases |xs|
  {
    if xs != [] {
      FilterIsSubsequence(xs[1..], keep);
      var r := Filter(xs, keep);
      if keep(xs[0]) {
        assert r[0] == xs[0] && r[1..] == Filter(xs[1..], keep);
      }
    }
  }

  /** Filtering twice with the same test changes nothing the second time. */
  lemma {:induction false} FilterIdempotent<T>(xs: seq<T>, keep: T -> bool)
    ensures Filter(Filter(xs, keep), keep) == Filter(xs, keep)
  {
    var r := Filter(xs, keep);
    assert forall i | 0 <= i < |r| :: keep(r[i]) by {
      forall i | 0 <= i < |r| ensures keep(r[i]) {
        assert r[i] in r;
      }
    }
  }

  /** `xs.filter((x, i) => keep(x, i))`, the index counted from `from`. */
  function FilterIndexed<T>(xs: seq<T>, from: nat, keep: (T, nat) -> bool): (r: seq<T>)
    ensures |r| <= |xs|
    ensures forall x | x in r :: exists i | 0 <= i < |xs| :: xs[i] == x && keep(x, from + i)
    ensures forall i | 0 <= i < |xs| && keep(xs[i], from + i) :: xs[i] in r
    decreases |xs|
  {
    if xs == [] then []
    else
      var rest := FilterIndexed(xs[1..], from + 1, keep);
      assert forall i | 1 <= i < |xs| :: xs[1..][i - 1] == xs[i];
      if keep(xs[0], from) then [xs[0]] + rest else rest
  }

  lemma {:induction false} FilterIndexedIsSubsequence<T>(xs: seq<T>, from: nat, keep: (T, nat) -> bool)
    ensures SubsequenceOf(FilterIndexed(xs, from, keep), xs)
    decreases |xs|
  {
    if xs != [] {
      var rest := FilterIndexed(xs[1..], from + 1, keep);
      FilterIndexedIsSubsequence(xs[1..], from + 1, keep);
      var r := FilterIndexed(xs, from, keep);
      if keep(xs[0], from) {
        assert r[0] == xs[0] && r[1..] == rest;
      }
    }
  }

  /** `Math.ceil(n / perPage)`, counted one page at a time;
      `CeilDivBounds` shows it is the ceiling of the quotient. */
  function CeilDiv(n: nat, perPage: nat): nat
    requires perPage > 0
    decreases n
  {
    if n == 0 then 0
    else if n <= perPage then 1
    else CeilDiv(n - perPage, perPage) + 1
  }

  /** The ceiling is the least count of pages that holds n elements. */
  lemma {:induction false} CeilDivBounds(n: nat, perPage: nat)
    requires perPage > 0
    ensures n == 0 ==> CeilDiv(n, perPage) == 0
    ensures n > 0 ==> (CeilDiv(n, perPage) - 1) * perPage < n <= CeilDiv(n, perPage) * perPage
    decreases n
  {
    if n > perPage {
      var c := CeilDiv(n - perPage, perPage);
      CeilDivBounds(n - perPage, perPage);
      assert (c + 1) * perPage == c * perPage + perPage;
      assert c * perPage == (c - 1) * perPage + perPage;
    }
  }

  /** `Math.max(1, Math.ceil(n / perPage))`: never fewer than one page. */
  function TotalPages(n: nat, perPage: nat): (r: nat)
    requires perPage > 0
    ensures r >= 1
    ensures n > 0 ==> r == CeilDiv(n, perPage)
    ensures n == 0 ==> r == 1
  {
    CeilDivBounds(n, perPage);
    var c := CeilDiv(n, perPage);
    if c < 1 then 1 else c
  }

  /** `xs.map((x, idx) => f(x, start + idx))`. */
  function MapIndexed<T, R>(xs: seq<T>, start: nat, f: (T, nat) -> R): seq<R> {
    seq(|xs|, k requires 0 <= k < |xs| => f(xs[k], start + k))
  }

  /** `xs.forEach((x, idx) => out.push(f(x, start + idx)))`. */
  method MapEach<T, R>(xs: seq<T>, start: nat, f: (T, nat) -> R) returns (ys: seq<R>)
    ensures ys == MapIndexed(xs, start, f)
  {
    ys := [];
    var idx := 0;
    while idx < |xs|
      invariant 0 <= idx <= |xs|
      invariant ys == MapIndexed(xs[..idx], start, f)
    {
      ys := ys + [f(xs[idx], start + idx)];
      assert xs[..idx + 1][..idx] == xs[..idx];
      idx := idx + 1;
    }
    assert xs[..idx] == xs;
  }

  /** `indexOfFirstRecord`: `page * perPage - perPage`. */
  function PageStart(page: nat, perPage: nat): int {
    page * perPage - perPage
  }

  lemma PageStartNext(page: nat, perPage: nat)
    ensures PageStart(page + 1, perPage) == PageStart(page, perPage) + perPage
    ensures page >= 1 ==> PageStart(page, perPage) >= 0
  {
    assert (page + 1) * perPage == page * perPage + perPage;
    if page >= 1 {
      assert page * perPage >= 1 * perPage;
    }
  }

  /** `xs.slice(indexOfFirstRecord, indexOfLastRecord)` with
      `indexOfLastRecord = page * perPage`; page 0 asks for
      `slice(-perPage, 0)`, which is empty. */
  function PageSlice<T>(xs: seq<T>, page: nat, perPage: nat): (r: seq<T>)
    ensures |r| <= perPage
    ensures page >= 1 && PageStart(page, perPage) + perPage <= |xs| ==> |r| == perPage
    ensures page >= 1 && PageStart(page, perPage) < |xs| < PageStart(page, perPage) + perPage
            ==> |r| == |xs| - PageStart(page, perPage)
    ensures page == 0 || PageStart(page, perPage) >= |xs| ==> r == []
    ensures forall k | 0 <= k < |r| :: 0 <= PageStart(page, perPage) + k < |xs| && r[k] == xs[PageStart(page, perPage) + k]
  {
    PageStartNext(page, perPage);
    var first := PageStart(page, perPage);
    var last := first + perPage;
    if page == 0 then []
    else if first >= |xs| then []
    else xs[first..Min(last, |xs|)]
  }

  function Min(a: int, b: int): int { if a <= b then a else b }

  /** The element at position i is shown on page i / perPage + 1, at
      position i % perPage. */
  lemma PageOfIndex<T>(xs: seq<T>, i: nat, perPage: nat)
    requires perPage > 0 && i < |xs|
    ensures var p := i / perPage + 1;
      && p <= TotalPages(|xs|, perPage)
      && i % perPage < |PageSlice(xs, p, perPage)|
      && PageSlice(xs, p, perPage)[i % perPage] == xs[i]
  {
    var q, r := i / perPage, i % perPage;
    assert q * perPage + r == i;
    PageStartNext(q, perPage);
    assert PageStart(q + 1, perPage) == q * perPage;
    var c := CeilDiv(|xs|, perPage);
    CeilDivBounds(|xs|, perPage);
    assert q < c by {
      if q >= c {
        MulMono(c, q, perPage);
      }
    }
  }

  lemma MulMono(a: nat, b: nat, d: nat)
    requires a <= b
    ensures a * d <= b * d
  {
  }

  /** The list cut into consecutive chunks of `size`; no chunk for an empty list. */
  function Chunks<T>(xs: seq<T>, size: nat): (r: seq<seq<T>>)
    requires size > 0
    decreases |xs|
  {
    if xs == [] then []
    else if |xs| <= size then [xs]
    else [xs[..size]] + Chunks(xs[size..], size)
  }

  function Concat<T>(xss: seq<seq<T>>): seq<T>
    decreases |xss|
  {
    if xss == [] then [] else xss[0] + Concat(xss[1..])
  }

  lemma {:induction false} ConcatAppend<T>(xss: seq<seq<T>>, ys: seq<T>)
    ensures Concat(xss + [ys]) == Concat(xss) + ys
    decreases |xss|
  {
    if xss == [] {
      assert [] + [ys] == [ys];
      assert Concat([ys][1..]) == [];
    } else {
      assert (xss + [ys])[1..] == xss[1..] + [ys];
      ConcatAppend(xss[1..], ys);
    }
  }

  /** Chunking loses nothing: the chunks put back together are the list,
      every chunk holds between 1 and `size` elements, all but the last hold
      exactly `size`, and there are ceil(|xs| / size) of them. */
  lemma {:induction false} ChunksProperties<T>(xs: seq<T>, size: nat)
    requires size > 0
    ensures Concat(Chunks(xs, size)) == xs
    ensures |Chunks(xs, size)| == CeilDiv(|xs|, size)
    ensures forall p | 0 <= p < |Chunks(xs, size)| :: 1 <= |Chunks(xs, size)[p]| <= size
    ensures forall p | 0 <= p < |Chunks(xs, size)| - 1 :: |Chunks(xs, size)[p]| == size
    decreases |xs|
  {
    var c := Chunks(xs, size);
    if xs == [] {
    } else if |xs| <= size {
      assert Concat(c) == xs + Concat(c[1..]);
    } else {
      var rest := Chunks(xs[size..], size);
      ChunksProperties(xs[size..], size);
      assert c[1..] == rest;
      assert Concat(c) == xs[..size] + Concat(rest);
      assert xs[..size] + xs[size..] == xs;
      forall p | 0 <= p < |c| ensures 1 <= |c[p]| <= size {
        if p > 0 { assert c[p] == rest[p - 1]; }
      }
      forall p | 0 <= p < |c| - 1 ensures |c[p]| == size {
        if p > 0 { assert c[p] == rest[p - 1]; }
      }
    }
  }

  /** Page p + 1 of a list is page p of the list without its first page. */
  lemma PageSliceShift<T>(xs: seq<T>, p: nat, size: nat)
    requires size > 0 && p >= 1 && size < |xs|
    ensures PageSlice(xs, p + 1, size) == PageSlice(xs[size..], p, size)
  {
    PageStartNext(p, size);
    var tail := xs[size..];
    var first := PageStart(p, size);
    if first < |tail| {
      var last := Min(first + size, |tail|);
      assert Min(first + size + size, |xs|) == last + size;
      assert tail[first..last] == xs[first + size..last + size];
    }
  }

  /** Chunk p is page p + 1 of the same list. */
  lemma {:induction false} ChunkIsPage<T>(xs: seq<T>, size: nat, p: nat)
    requires size > 0 && p < |Chunks(xs, size)|
    ensures Chunks(xs, size)[p] == PageSlice(xs, p + 1, size)
    decreases |xs|
  {
    assert PageStart(1, size) == 0;
    if p > 0 {
      var tail := xs[size..];
      assert Chunks(xs, size)[p] == Chunks(tail, size)[p - 1];
      ChunkIsPage(tail, size, p - 1);
      PageSliceShift(xs, p, size);
    }
  }
}
