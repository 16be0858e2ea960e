/** Offset pagination, `list.slice(page * limit, page * limit + limit)`,
    stated once for any list. */
module Paging {
  import opened Seqs

  /** `page * limit`, the first position of a page, written as repeated
      addition so that page arithmetic stays linear. */
  function PageStart(page: nat, limit: nat): nat
  {
    if page == 0 then 0 else PageStart(page - 1, limit) + limit
  }

  /** The repeated addition is the product. */
  lemma {:induction false} PageStartIsProduct(page: nat, limit: nat)
    ensures PageStart(page, limit) == page * limit
  {
    if page > 0 {
      PageStartIsProduct(page - 1, limit);
      assert (page - 1) * limit + limit == page * limit;
    }
  }

  /** Page `page` of `s`: at most `limit` elements, read from `page * limit` on. */
  function Page<T>(s: seq<T>, page: nat, limit: nat): (r: seq<T>)
    ensures |r| <= limit
    ensures forall k :: 0 <= k < |r| ==> PageStart(page, limit) + k < |s| && r[k] == s[PageStart(page, limit) + k]
    ensures PageStart(page, limit) + limit <= |s| ==> |r| == limit
  {
    Slice(s, PageStart(page, limit), PageStart(page, limit) + limit)
  }

  /** Pages 0 … k-1, one after the other. */
  function PagesUpTo<T>(s: seq<T>, limit: nat, k: nat): seq<T>
  {
    if k == 0 then [] else PagesUpTo(s, limit, k - 1) + Page(s, k - 1, limit)
  }

  /** Reading pages 0, 1, … in turn reads the list from the front with no gap
      and no repetition. */
  lemma {:induction false} PagesCover<T>(s: seq<T>, limit: nat, k: nat)
    ensures PagesUpTo(s, limit, k) == Take(s, PageStart(k, limit))
  {
    if k > 0 {
      PagesCover(s, limit, k - 1);
      TakeSlice(s, PageStart(k - 1, limit), PageStart(k, limit));
    }
  }

  /** Once nothing follows a page, the pages read so far are the whole list. */
  lemma LastPageCompletes<T>(s: seq<T>, page: nat, limit: nat)
    requires !(PageStart(page, limit) + limit < |s|)
    ensures PagesUpTo(s, limit, page + 1) == s
  {
    PagesCover(s, limit, page + 1);
  }
}
