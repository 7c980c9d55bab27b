/**
 * Specification of paged traversal: how a sequence is cut into pages of a fixed
 * size, which of those pages a do-while loop with a short-page sentinel fetches,
 * which of them carry items, and what a target receives when the same batch is
 * handed to it once per occurrence in a target list.
 */
module Paging {

  function Min(a: int, b: int): int {
    if a <= b then a else b
  }

  /** Monotonicity of multiplication by a non-negative factor. */
  lemma {:induction false} MulMono(a: nat, b: nat, k: nat)
    requires a <= b
    ensures a * k <= b * k
  {
    if a < b {
      MulMono(a, b - 1, k);
      assert (b - 1) * k + k == b * k;
    }
  }

  lemma NextPageStart(j: nat, pageSize: nat)
    ensures (j + 1) * pageSize == j * pageSize + pageSize
  {
  }

  /** Quotient and remainder are determined by `n == q * pageSize + r` with `0 <= r < pageSize`. */
  lemma DivUnique(n: nat, pageSize: nat, q: nat, r: nat)
    requires pageSize > 0 && r < pageSize && n == q * pageSize + r
    ensures n / pageSize == q && n % pageSize == r
  {
    var q', r' := n / pageSize, n % pageSize;
    assert n == q' * pageSize + r';
    NextPageStart(q, pageSize);
    NextPageStart(q', pageSize);
    if q < q' {
      MulMono(q + 1, q', pageSize);
    } else if q' < q {
      MulMono(q' + 1, q, pageSize);
    }
  }

  /**
   * When the first `i` pages of size `pageSize` fit in `n` items, `i` is at most
   * the number of full pages, and it equals that number exactly when fewer than
   * `pageSize` items remain.
   */
  lemma DivisionByPages(n: nat, pageSize: nat, i: nat)
    requires pageSize > 0 && i * pageSize <= n
    ensures i <= n / pageSize
    ensures n - i * pageSize < pageSize ==> n / pageSize == i && n % pageSize == n - i * pageSize
  {
    var q, r := n / pageSize, n % pageSize;
    assert n == q * pageSize + r;
    NextPageStart(q, pageSize);
    if q < i {
      MulMono(q + 1, i, pageSize);
    }
    if n - i * pageSize < pageSize {
      DivUnique(n, pageSize, i, n - i * pageSize);
    }
  }

  /**
   * The page with index `pageIndex` (counted from 0) when `s` is read in pages of
   * `pageSize` items: the slice from `pageIndex * pageSize` up to the next page
   * boundary or the end of `s`, and empty once the start lies past the end.
   */
  function PageOf<T>(s: seq<T>, pageIndex: nat, pageSize: nat): (page: seq<T>)
    ensures |page| <= pageSize
    ensures pageIndex * pageSize >= |s| ==> page == []
    ensures pageIndex * pageSize < |s| ==> |page| == Min(pageSize, |s| - pageIndex * pageSize)
    ensures forall k :: 0 <= k < |page| ==> page[k] == s[pageIndex * pageSize + k]
  {
    var start := pageIndex * pageSize;
    if start >= |s| then [] else s[start..Min(start + pageSize, |s|)]
  }

  /** Dropping the first page shifts every later page down by one index. */
  lemma PageOfDrop<T>(s: seq<T>, pageSize: nat, i: nat)
    requires pageSize <= |s|
    ensures PageOf(s[pageSize..], i, pageSize) == PageOf(s, i + 1, pageSize)
  {
    NextPageStart(i, pageSize);
    var a, b := PageOf(s[pageSize..], i, pageSize), PageOf(s, i + 1, pageSize);
    assert |a| == |b|;
    forall k | 0 <= k < |a| ensures a[k] == b[k] {
      assert a[k] == s[pageSize..][i * pageSize + k];
    }
  }

  /**
   * The pages of a sequence of `n` items that hold at least one item: every full
   * page, and the trailing short page when `pageSize` does not divide `n`.
   */
  function PagesWithItems(n: nat, pageSize: nat): nat
    requires pageSize > 0
  {
    n / pageSize + (if n % pageSize == 0 then 0 else 1)
  }

  /**
   * The short-page sentinel stops after exactly `|s| / pageSize + 1` fetches:
   * every page before index `|s| / pageSize` is full, and that page is short,
   * holding the `|s| % pageSize` remaining items (none when `pageSize` divides `|s|`).
   */
  lemma PagesFullUntilLast<T>(s: seq<T>, pageSize: nat)
    requires pageSize > 0
    ensures forall i: nat :: i < |s| / pageSize ==> |PageOf(s, i, pageSize)| == pageSize
    ensures |PageOf(s, |s| / pageSize, pageSize)| == |s| % pageSize < pageSize
    ensures PageOf(s, |s| / pageSize, pageSize) == [] <==> |s| % pageSize == 0
  {
    var n := |s|;
    forall i: nat | i < n / pageSize
      ensures |PageOf(s, i, pageSize)| == pageSize
    {
      MulMono(i + 1, n / pageSize, pageSize);
      NextPageStart(i, pageSize);
    }
    assert n == (n / pageSize) * pageSize + n % pageSize;
  }

  /**
   * The pages of `s` that hold items, in order: `s` cut after every `pageSize`
   * items, the last piece possibly shorter.
   */
  function Chunks<T>(s: seq<T>, pageSize: nat): (pages: seq<seq<T>>)
    requires pageSize > 0
    ensures forall k :: 0 <= k < |pages| ==> 0 < |pages[k]| <= pageSize
    decreases |s|
  {
    if s == [] then []
    else if |s| <= pageSize then [s]
    else [s[..pageSize]] + Chunks(s[pageSize..], pageSize)
  }

  /** Every item of `s` is in exactly one chunk, in order. */
  lemma {:induction false} ChunksCover<T>(s: seq<T>, pageSize: nat)
    requires pageSize > 0
    ensures Flatten(Chunks(s, pageSize)) == s
    decreases |s|
  {
    if |s| > pageSize {
      var c := Chunks(s, pageSize);
      ChunksCover(s[pageSize..], pageSize);
      assert c[1..] == Chunks(s[pageSize..], pageSize);
      assert s[..pageSize] + s[pageSize..] == s;
    }
  }

  /** The `i`-th chunk is the `i`-th page that the service returns. */
  lemma {:induction false} ChunkAt<T>(s: seq<T>, pageSize: nat, i: nat)
    requires pageSize > 0 && i < |Chunks(s, pageSize)|
    ensures Chunks(s, pageSize)[i] == PageOf(s, i, pageSize)
    decreases i
  {
    if i > 0 {
      assert |s| > pageSize;
      ChunkAt(s[pageSize..], pageSize, i - 1);
      PageOfDrop(s, pageSize, i - 1);
    }
  }

  /** There is one chunk per page that holds items. */
  lemma {:induction false} ChunkCount<T>(s: seq<T>, pageSize: nat)
    requires pageSize > 0
    ensures |Chunks(s, pageSize)| == PagesWithItems(|s|, pageSize)
    decreases |s|
  {
    var n := |s|;
    if n == 0 {
    } else if n <= pageSize {
      if n < pageSize {
        DivUnique(n, pageSize, 0, n);
      } else {
        DivUnique(n, pageSize, 1, 0);
      }
    } else {
      ChunkCount(s[pageSize..], pageSize);
      var m := n - pageSize;
      NextPageStart(m / pageSize, pageSize);
      assert m == (m / pageSize) * pageSize + m % pageSize;
      DivUnique(n, pageSize, m / pageSize + 1, m % pageSize);
    }
  }

  /**
   * One step of the populate loop at page `i`, while all earlier pages were full:
   * a page with items is the next chunk; a full page leaves room for another;
   * a short page (possibly empty) is page `|s| / pageSize` and follows the last chunk.
   */
  lemma PageStep<T>(s: seq<T>, pageSize: nat, i: nat)
    requires pageSize > 0 && i * pageSize <= |s|
    ensures PageOf(s, i, pageSize) != [] ==>
      i < |Chunks(s, pageSize)| && Chunks(s, pageSize)[i] == PageOf(s, i, pageSize)
    ensures |PageOf(s, i, pageSize)| == pageSize ==> (i + 1) * pageSize <= |s|
    ensures |PageOf(s, i, pageSize)| < pageSize ==>
      && i == |s| / pageSize
      && |Chunks(s, pageSize)| == i + (if PageOf(s, i, pageSize) == [] then 0 else 1)
  {
    var n, page := |s|, PageOf(s, i, pageSize);
    NextPageStart(i, pageSize);
    DivisionByPages(n, pageSize, i);
    ChunkCount(s, pageSize);
    if page != [] {
      if |page| == pageSize {
        DivisionByPages(n, pageSize, i + 1);
      }
      ChunkAt(s, pageSize, i);
    }
  }

  lemma AppendAssoc<T>(a: seq<T>, b: seq<T>, c: seq<T>)
    ensures (a + b) + c == a + (b + c)
  {
  }

  lemma PrefixSnoc<T>(s: seq<T>, i: nat)
    requires i < |s|
    ensures s[..i + 1] == s[..i] + [s[i]]
  {
  }

  /** Applies `f` to every element, keeping length and order. */
  function MapSeq<T, U>(f: T -> U, s: seq<T>): (r: seq<U>)
    ensures |r| == |s|
    ensures forall k :: 0 <= k < |s| ==> r[k] == f(s[k])
  {
    if s == [] then [] else [f(s[0])] + MapSeq(f, s[1..])
  }

  lemma {:induction false} MapSeqAppend<T, U>(f: T -> U, a: seq<T>, b: seq<T>)
    ensures MapSeq(f, a + b) == MapSeq(f, a) + MapSeq(f, b)
  {
    if a != [] {
      assert (a + b)[1..] == a[1..] + b;
      MapSeqAppend(f, a[1..], b);
    }
  }

  /** The concatenation of a sequence of batches, in order. */
  function Flatten<T>(batches: seq<seq<T>>): seq<T> {
    if batches == [] then [] else batches[0] + Flatten(batches[1..])
  }

  /**
   * What the populate loop delivers: one batch per page that holds items, each
   * batch being `f` applied to the items of that page, in page order.
   */
  function Batches<T, U>(f: T -> U, s: seq<T>, pageSize: nat): (batches: seq<seq<U>>)
    requires pageSize > 0
  {
    var pages := Chunks(s, pageSize);
    seq(|pages|, k requires 0 <= k < |pages| => MapSeq(f, pages[k]))
  }

  /** No delivered batch is empty, and none is larger than a page. */
  lemma BatchesNonEmpty<T, U>(f: T -> U, s: seq<T>, pageSize: nat)
    requires pageSize > 0
    ensures forall k :: 0 <= k < |Batches(f, s, pageSize)| ==>
      0 < |Batches(f, s, pageSize)[k]| <= pageSize
  {
  }

  /** Mapping each batch and then concatenating is mapping the concatenation. */
  lemma {:induction false} FlattenMap<T, U>(f: T -> U, pages: seq<seq<T>>)
    ensures Flatten(seq(|pages|, k requires 0 <= k < |pages| => MapSeq(f, pages[k])))
         == MapSeq(f, Flatten(pages))
  {
    if pages != [] {
      var mapped := seq(|pages|, k requires 0 <= k < |pages| => MapSeq(f, pages[k]));
      var rest := pages[1..];
      FlattenMap(f, rest);
      assert mapped[1..] == seq(|rest|, k requires 0 <= k < |rest| => MapSeq(f, rest[k]));
      MapSeqAppend(f, pages[0], Flatten(rest));
    }
  }

  /**
   * Completeness: the delivered batches, concatenated, are `f` applied to every
   * item of `s` exactly once and in order.
   */
  lemma BatchesCoverAll<T, U>(f: T -> U, s: seq<T>, pageSize: nat)
    requires pageSize > 0
    ensures Flatten(Batches(f, s, pageSize)) == MapSeq(f, s)
  {
    FlattenMap(f, Chunks(s, pageSize));
    ChunksCover(s, pageSize);
  }

  /**
   * A walk of `s` fetches `|s| / pageSize + 1` pages: one per delivered batch, plus
   * one empty page exactly when `|s|` is a multiple of the page size (for an empty
   * source, that empty page is the only fetch).
   */
  lemma FetchesBeyondBatches<T, U>(f: T -> U, s: seq<T>, pageSize: nat)
    requires pageSize > 0
    ensures |s| / pageSize + 1 == |Batches(f, s, pageSize)| + (if |s| % pageSize == 0 then 1 else 0)
  {
    ChunkCount(s, pageSize);
  }

  /**
   * One pass of the populate loop, stated on the specification: after `i` full
   * pages were delivered as the first `i` batches, page `i` either is full (the
   * walk goes on, with less left to read) or is short, in which case it is page
   * `|s| / pageSize` and, together with what came before, completes the batches.
   */
  lemma DeliveryStep<T, U>(f: T -> U, s: seq<T>, pageSize: nat, i: nat, delivered: seq<seq<U>>)
    requires pageSize > 0 && i * pageSize <= |s|
    requires i <= |Batches(f, s, pageSize)| && delivered == Batches(f, s, pageSize)[..i]
    ensures var page := PageOf(s, i, pageSize);
      var next := if page != [] then delivered + [MapSeq(f, page)] else delivered;
      && (|page| == pageSize ==>
            && (i + 1) * pageSize <= |s|
            && i + 1 <= |Batches(f, s, pageSize)|
            && next == Batches(f, s, pageSize)[..i + 1]
            && |s| - (i + 1) * pageSize < |s| - i * pageSize)
      && (|page| < pageSize ==> i == |s| / pageSize && next == Batches(f, s, pageSize))
  {
    var b, page := Batches(f, s, pageSize), PageOf(s, i, pageSize);
    PageStep(s, pageSize, i);
    NextPageStart(i, pageSize);
    if page != [] {
      assert b[i] == MapSeq(f, page);
      PrefixSnoc(b, i);
    }
    if |page| < pageSize {
      assert |b| == i + (if page == [] then 0 else 1);
      assert b[..|b|] == b;
    }
  }

  /** How often `x` occurs in `s`. */
  function Occurrences<T(==)>(s: seq<T>, x: T): nat {
    if s == [] then 0 else Occurrences(s[..|s| - 1], x) + (if s[|s| - 1] == x then 1 else 0)
  }

  /** `m` copies of `x`. */
  function Repeat<T>(x: T, m: nat): (r: seq<T>)
    ensures |r| == m
    ensures forall k :: 0 <= k < m ==> r[k] == x
  {
    if m == 0 then [] else Repeat(x, m - 1) + [x]
  }

  /**
   * What one target receives when every batch in turn is handed to each entry of
   * a target list in which that target occurs `m` times.
   */
  function Fanout<T>(batches: seq<T>, m: nat): seq<T> {
    if batches == [] then [] else Fanout(batches[..|batches| - 1], m) + Repeat(batches[|batches| - 1], m)
  }

  /** Handing one more batch to a target appends its copies to what it received. */
  lemma FanoutSnoc<T>(batches: seq<T>, b: T, m: nat)
    ensures Fanout(batches + [b], m) == Fanout(batches, m) + Repeat(b, m)
  {
    assert (batches + [b])[..|batches|] == batches;
  }

  /** A target listed once receives exactly the batches, in order. */
  lemma {:induction false} FanoutOnce<T>(batches: seq<T>)
    ensures Fanout(batches, 1) == batches
  {
    if batches != [] {
      var j := |batches| - 1;
      FanoutOnce(batches[..j]);
      assert batches[..j] + [batches[j]] == batches;
    }
  }

  /** A target listed `m` times receives `m` times as many batches. */
  lemma {:induction false} FanoutLength<T>(batches: seq<T>, m: nat)
    ensures |Fanout(batches, m)| == |batches| * m
  {
    if batches != [] {
      var j := |batches| - 1;
      FanoutLength(batches[..j], m);
      NextPageStart(j, m);
    }
  }
}
