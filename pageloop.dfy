/**
 * The shape of the page loop `for p in range(1, max_pages + 1)` of
 * `scraper_dakar_auto`, independent of what a page yields: page `p`
 * contributes `pageOf(p)`, and the pages' contributions are appended in
 * page order.
 */
module PageLoop {
  /** The contributions of pages 1 to `n`, appended in page order. */
  function Gather<T>(pageOf: nat -> seq<T>, n: int): seq<T>
    decreases n
  {
    if n <= 0 then [] else Gather(pageOf, n - 1) + pageOf(n)
  }

  /** The contributions of pages 1 to `n`, one entry per page. */
  function Pages<T>(pageOf: nat -> seq<T>, n: nat): (r: seq<seq<T>>)
    ensures |r| == n
  {
    if n == 0 then [] else Pages(pageOf, n - 1) + [pageOf(n)]
  }

  /** Entry `i` of `Pages` is the contribution of page `i + 1`. */
  lemma {:induction false} PagesAt<T>(pageOf: nat -> seq<T>, n: nat, i: nat)
    requires i < n
    ensures Pages(pageOf, n)[i] == pageOf(i + 1)
  {
    if i < n - 1 {
      PagesAt(pageOf, n - 1, i);
    }
  }

  /** The entries of a list of lists, one after another. */
  function Concat<T>(pages: seq<seq<T>>): seq<T> {
    if pages == [] then [] else pages[0] + Concat(pages[1..])
  }

  lemma {:induction false} ConcatSnoc<T>(pages: seq<seq<T>>, last: seq<T>)
    ensures Concat(pages + [last]) == Concat(pages) + last
  {
    if pages != [] {
      assert (pages + [last])[1..] == pages[1..] + [last];
      ConcatSnoc(pages[1..], last);
    }
  }

  /** The loop's result is the concatenation, in page order, of the pages' contributions. */
  lemma {:induction false} GatherIsConcat<T>(pageOf: nat -> seq<T>, n: nat)
    ensures Gather(pageOf, n) == Concat(Pages(pageOf, n))
  {
    if n > 0 {
      GatherIsConcat(pageOf, n - 1);
      ConcatSnoc(Pages(pageOf, n - 1), pageOf(n));
    }
  }

  /** Running the loop over more pages only appends to the result of fewer pages. */
  lemma {:induction false} GatherGrows<T>(pageOf: nat -> seq<T>, m: int, n: int)
    requires m <= n
    ensures |Gather(pageOf, m)| <= |Gather(pageOf, n)|
    ensures Gather(pageOf, n)[..|Gather(pageOf, m)|] == Gather(pageOf, m)
    decreases n - m
  {
    if m < n {
      GatherGrows(pageOf, m, n - 1);
      if n > 0 {
        var prefix := Gather(pageOf, n - 1);
        assert Gather(pageOf, n)[..|prefix|] == prefix;
      }
    }
  }

  /** The result depends on the contributions of pages 1 to `n` only. */
  lemma {:induction false} GatherAgrees<T>(f: nat -> seq<T>, g: nat -> seq<T>, n: int)
    requires forall p :: 1 <= p <= n ==> f(p) == g(p)
    ensures Gather(f, n) == Gather(g, n)
    decreases n
  {
    if n > 0 {
      GatherAgrees(f, g, n - 1);
    }
  }

  /** Everything in the result comes from one of the pages 1 to `n`. */
  lemma {:induction false} GatherMember<T>(pageOf: nat -> seq<T>, n: int, x: T)
    requires x in Gather(pageOf, n)
    ensures exists p :: 1 <= p <= n && x in pageOf(p)
    decreases n
  {
    if n > 0 && x !in pageOf(n) {
      GatherMember(pageOf, n - 1, x);
    }
  }
}
