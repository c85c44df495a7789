/** GET /api/products: the filter, the page window and the page counts of
    the public catalogue listing. The catalogue is taken in the order the
    query sorts it (newest first); text search is not modelled. */
module ProductListing {
  import opened Common
  import opened Text
  import opened Models

  /** The filtering part of the query string: `category` (trimmed by its
      sanitizer), the price bounds `min` and `max`, and `active`. */
  datatype Criteria = Criteria(category: Input<string>, min: Input<int>, max: Input<int>,
                               active: Input<bool>)

  datatype ListQuery = ListQuery(criteria: Criteria, page: Input<int>, limit: Input<int>)

  /** The response body. */
  datatype Listing = Listing(total: nat, page: int, pages: int, limit: int,
                             hasNext: bool, hasPrev: bool, items: seq<Product>)

  /** `listRules`: every field is optional; bounds are at least 0, the page
      at least 1, the limit between 1 and 50. */
  predicate ListRulesHold(q: ListQuery) {
    && !q.criteria.category.Malformed? && !q.criteria.active.Malformed?
    && !q.criteria.min.Malformed? && (q.criteria.min.Given? ==> q.criteria.min.value >= 0)
    && !q.criteria.max.Malformed? && (q.criteria.max.Given? ==> q.criteria.max.value >= 0)
    && !q.page.Malformed? && (q.page.Given? ==> q.page.value >= 1)
    && !q.limit.Malformed? && (q.limit.Given? ==> 1 <= q.limit.value <= 50)
  }

  /** `Number(pageRaw) || 1` with `pageRaw` defaulting to 1. */
  function PageOf(page: Input<int>): int {
    if page.Given? && page.value != 0 then page.value else 1
  }

  /** `Math.min(Number(limitRaw) || 12, 50)` with `limitRaw` defaulting to 12. */
  function LimitOf(limit: Input<int>): int {
    var l := if limit.Given? && limit.value != 0 then limit.value else 12;
    if l < 50 then l else 50
  }

  /** Under the rules the page is the one asked for (1 by default) and the
      limit the one asked for (12 by default), never above 50. */
  lemma {:induction false} PageAndLimitDefaults(q: ListQuery)
    requires ListRulesHold(q)
    ensures PageOf(q.page) == (if q.page.Given? then q.page.value else 1) >= 1
    ensures LimitOf(q.limit) == (if q.limit.Given? then q.limit.value else 12)
    ensures 1 <= LimitOf(q.limit) <= 50
  {
  }

  /** `Math.ceil(total / limit) || 1`: enough pages to hold every match, the
      last one not empty, and at least one page even with no matches. */
  function PageCount(total: nat, limit: int): (pages: int)
    requires limit >= 1
    ensures pages >= 1
    ensures total <= pages * limit
    ensures total == 0 || (pages - 1) * limit < total
    ensures total == 0 ==> pages == 1
  {
    if total == 0 then 1
    else
      var n := total + limit - 1;
      assert n == (n / limit) * limit + n % limit;
      assert (n / limit - 1) * limit == (n / limit) * limit - limit;
      n / limit
  }

  /** `hasNext: page < pages` holds exactly when matches lie beyond this page. */
  lemma {:induction false} HasNextIffMoreMatches(total: nat, page: int, limit: int)
    requires page >= 1 && limit >= 1
    ensures page < PageCount(total, limit) <==> page * limit < total
  {
    var pages := PageCount(total, limit);
    if page < pages {
      assert page * limit <= (pages - 1) * limit by {
        MultiplyMonotone(page, pages - 1, limit);
      }
    }
    if page * limit < total {
      if pages <= page {
        MultiplyMonotone(pages, page, limit);
        assert false;
      }
    }
  }

  lemma MultiplyMonotone(a: int, b: int, c: int)
    requires a <= b && c >= 0
    ensures a * c <= b * c
  {
    assert b * c - a * c == (b - a) * c;
  }

  /** The Mongo filter built from the criteria: a category that is not empty
      once trimmed, the `active` flag when given, and each price bound that
      is given. */
  predicate Matches(p: Product, c: Criteria) {
    && (c.category.Given? && Trim(c.category.value) != "" ==> p.category == Some(Trim(c.category.value)))
    && (c.active.Given? ==> p.active == c.active.value)
    && (c.min.Given? ==> p.price >= c.min.value)
    && (c.max.Given? ==> p.price <= c.max.value)
  }

  /** The matching products, in catalogue order. */
  function Filter(catalog: seq<Product>, c: Criteria): (r: seq<Product>)
    ensures |r| <= |catalog|
    ensures multiset(r) <= multiset(catalog)
    ensures forall p :: p in r <==> p in catalog && Matches(p, c)
  {
    if catalog == [] then []
    else
      assert catalog == [catalog[0]] + catalog[1..];
      if Matches(catalog[0], c) then [catalog[0]] + Filter(catalog[1..], c)
      else Filter(catalog[1..], c)
  }

  /** Filtering keeps catalogue order: the matches of two catalogues joined
      are the matches of the first followed by those of the second. */
  lemma {:induction false} FilterAppend(a: seq<Product>, b: seq<Product>, c: Criteria)
    ensures Filter(a + b, c) == Filter(a, c) + Filter(b, c)
  {
    if a == [] {
      assert a + b == b;
    } else {
      assert (a + b)[0] == a[0];
      assert (a + b)[1..] == a[1..] + b;
      FilterAppend(a[1..], b, c);
    }
  }

  /** An empty criteria set selects the whole catalogue (inactive products
      included). */
  lemma {:induction false} NoCriteriaListsEverything(catalog: seq<Product>)
    ensures Filter(catalog, Criteria(Absent, Absent, Absent, Absent)) == catalog
  {
    if catalog != [] {
      NoCriteriaListsEverything(catalog[1..]);
      assert [catalog[0]] + catalog[1..] == catalog;
    }
  }

  /** The first index of the window of page `page` of size `limit`, clipped
      to the number of matches. */
  function WindowStart(total: nat, page: int, limit: int): (lo: nat)
    ensures lo <= total
  {
    var skip := (page - 1) * limit;
    if skip < 0 then 0 else if skip < total then skip else total
  }

  /** The items of one page: from `WindowStart` on, at most `limit` of them. */
  function Window(matches: seq<Product>, page: int, limit: int): (items: seq<Product>)
    requires limit >= 1
    ensures |items| <= limit
    ensures var lo := WindowStart(|matches|, page, limit);
            lo + |items| <= |matches| && items == matches[lo..lo + |items|]
    ensures var lo := WindowStart(|matches|, page, limit);
            |items| == (if lo + limit <= |matches| then limit else |matches| - lo)
  {
    var lo := WindowStart(|matches|, page, limit);
    var hi := if lo + limit < |matches| then lo + limit else |matches|;
    matches[lo..hi]
  }

  /** The handler: 400 (`None`) when the rules fail; otherwise the matches
      counted, and the page skipping `(page - 1) * limit` of them and holding
      at most `limit`. */
  function ListProducts(catalog: seq<Product>, q: ListQuery): (r: Option<Listing>)
    ensures r.None? <==> !ListRulesHold(q)
    ensures r.Some? ==>
              var matches := Filter(catalog, q.criteria);
              && r.value.total == |matches|
              && r.value.page == PageOf(q.page) >= 1
              && r.value.limit == LimitOf(q.limit)
              && 1 <= r.value.limit <= 50
              && r.value.pages == PageCount(|matches|, r.value.limit)
              && (r.value.hasNext <==> r.value.page < r.value.pages)
              && (r.value.hasPrev <==> r.value.page > 1)
              && r.value.items == Window(matches, r.value.page, r.value.limit)
  {
    if !ListRulesHold(q) then None
    else
      var matches := Filter(catalog, q.criteria);
      var page, limit := PageOf(q.page), LimitOf(q.limit);
      PageAndLimitDefaults(q);
      var pages := PageCount(|matches|, limit);
      Some(Listing(|matches|, page, pages, limit, page < pages, page > 1, Window(matches, page, limit)))
  }

  /** `hasNext` holds exactly when matches lie beyond the current page. */
  lemma {:induction false} HasNextIffMatchesBeyond(catalog: seq<Product>, q: ListQuery)
    requires ListRulesHold(q)
    ensures var r := ListProducts(catalog, q).value;
            r.hasNext <==> r.page * r.limit < r.total
  {
    PageAndLimitDefaults(q);
    var r := ListProducts(catalog, q).value;
    HasNextIffMoreMatches(r.total, r.page, r.limit);
  }

  /** Each listed item lies within the price bounds asked for, and matches
      the other criteria too. */
  lemma {:induction false} ListedWithinPriceBounds(catalog: seq<Product>, q: ListQuery, p: Product)
    requires ListProducts(catalog, q).Some? && p in ListProducts(catalog, q).value.items
    ensures p in catalog && Matches(p, q.criteria)
    ensures q.criteria.min.Given? ==> p.price >= q.criteria.min.value
    ensures q.criteria.max.Given? ==> p.price <= q.criteria.max.value
  {
    PageAndLimitDefaults(q);
    var matches := Filter(catalog, q.criteria);
    var items := ListProducts(catalog, q).value.items;
    var lo := WindowStart(|matches|, PageOf(q.page), LimitOf(q.limit));
    var k :| 0 <= k < |items| && items[k] == p;
    assert items[k] == matches[lo + k];
  }

  /** Within the matches, index `i` falls on page `i / limit + 1` at
      position `i % limit`. */
  lemma WindowHoldsIndex(matches: seq<Product>, i: nat, limit: int)
    requires i < |matches| && limit >= 1
    ensures 0 <= i % limit < |Window(matches, i / limit + 1, limit)|
    ensures Window(matches, i / limit + 1, limit)[i % limit] == matches[i]
  {
    var page := i / limit + 1;
    var skip := (page - 1) * limit;
    assert skip == (i / limit) * limit;
    assert i == skip + i % limit;
    var lo := WindowStart(|matches|, page, limit);
    assert lo == skip;
    var items := Window(matches, page, limit);
    assert items == matches[lo..lo + |items|];
  }

  /** Paging reaches every match: the match at index `i` is item
      `i % limit` of page `i / limit + 1` under the same criteria. */
  lemma {:induction false} EveryMatchOnItsPage(catalog: seq<Product>, q: ListQuery, i: nat)
    requires ListRulesHold(q)
    requires i < |Filter(catalog, q.criteria)|
    ensures var limit := LimitOf(q.limit);
            var r := ListProducts(catalog, q.(page := Given(i / limit + 1)));
            && r.Some? && i % limit < |r.value.items|
            && r.value.items[i % limit] == Filter(catalog, q.criteria)[i]
  {
    var limit := LimitOf(q.limit);
    var matches := Filter(catalog, q.criteria);
    PageAndLimitDefaults(q);
    var page := i / limit + 1;
    var q' := q.(page := Given(page));
    assert q'.criteria == q.criteria && q'.limit == q.limit;
    assert ListRulesHold(q') && PageOf(q'.page) == page;
    ListedPage(catalog, q');
    WindowHoldsIndex(matches, i, limit);
  }

  /** Under the rules, the items of a listing are the window of its page. */
  lemma ListedPage(catalog: seq<Product>, q: ListQuery)
    requires ListRulesHold(q)
    ensures ListProducts(catalog, q).Some?
    ensures ListProducts(catalog, q).value.items
            == Window(Filter(catalog, q.criteria), PageOf(q.page), LimitOf(q.limit))
  {
  }
}
