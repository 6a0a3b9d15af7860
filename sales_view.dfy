/** The read side of the sales and inventory screens: the newest-first
    order of the sales snapshot and the two search filters. */
module SalesView {
  import opened Wrappers
  import opened Numeric
  import opened Seqs
  import opened Domain

  // ---------------------------------------------------------------------------
  // Newest first

  /** A sale's sort key: its server timestamp in seconds, or
      `Number.MAX_SAFE_INTEGER` while the timestamp is still pending. */
  function SortKey(s: Sale): int {
    match s.createdAt
    case Some(t) => t
    case None => MaxSafeInteger
  }

  /** The comparator handed to `sort`: negative when `a` goes first. */
  function NewestFirst(a: Sale, b: Sale): int {
    SortKey(b) - SortKey(a)
  }

  predicate SortedNewestFirst(s: seq<Sale>) {
    forall i, j :: 0 <= i < j < |s| ==> NewestFirst(s[i], s[j]) <= 0
  }

  /** Insert `x` before the first sale that does not sort strictly before it,
      so that among equal keys earlier input stays first. */
  function Insert(x: Sale, s: seq<Sale>): (r: seq<Sale>)
    ensures |r| == |s| + 1
    ensures r[0] == x || (s != [] && r[0] == s[0])
  {
    if s == [] || NewestFirst(x, s[0]) <= 0 then [x] + s
    else [s[0]] + Insert(x, s[1..])
  }

  lemma {:induction false} InsertSorted(x: Sale, s: seq<Sale>)
    requires SortedNewestFirst(s)
    ensures SortedNewestFirst(Insert(x, s))
  {
    if s != [] && NewestFirst(x, s[0]) > 0 {
      InsertSorted(x, s[1..]);
      var rest := Insert(x, s[1..]);
      assert SortKey(rest[0]) <= SortKey(s[0]);
    }
  }

  lemma {:induction false} InsertPermutes(x: Sale, s: seq<Sale>)
    ensures multiset(Insert(x, s)) == multiset(s) + multiset{x}
  {
    if s != [] && NewestFirst(x, s[0]) > 0 {
      InsertPermutes(x, s[1..]);
      assert s == [s[0]] + s[1..];
    }
  }

  /** `data.sort(comparator)` as a stable sort: the result is ordered newest
      first and holds exactly the sales of the snapshot. */
  function SortNewestFirst(sales: seq<Sale>): (r: seq<Sale>)
    ensures SortedNewestFirst(r)
    ensures multiset(r) == multiset(sales)
  {
    if sales == [] then []
    else
      var rest := SortNewestFirst(sales[1..]);
      InsertSorted(sales[0], rest);
      InsertPermutes(sales[0], rest);
      assert sales == [sales[0]] + sales[1..];
      Insert(sales[0], rest)
  }

  /** A snapshot already in newest-first order is left exactly as it is. */
  lemma {:induction false} SortKeepsSorted(sales: seq<Sale>)
    requires SortedNewestFirst(sales)
    ensures SortNewestFirst(sales) == sales
  {
    if sales != [] {
      SortKeepsSorted(sales[1..]);
      assert sales == [sales[0]] + sales[1..];
    }
  }

  /** Sales whose timestamp is still pending come before every sale with a
      real timestamp. */
  lemma PendingFirst(sales: seq<Sale>)
    ensures var r := SortNewestFirst(sales);
      forall i, j :: 0 <= i < j < |r| && r[j].createdAt.None? && r[i].createdAt.Some? ==>
        r[i].createdAt.value >= MaxSafeInteger
  {
    var r := SortNewestFirst(sales);
    forall i, j | 0 <= i < j < |r| && r[j].createdAt.None? && r[i].createdAt.Some?
      ensures r[i].createdAt.value >= MaxSafeInteger
    {
      assert NewestFirst(r[i], r[j]) <= 0;
    }
  }

  // ---------------------------------------------------------------------------
  // Search

  /** ASCII `toLowerCase`. */
  function LowerChar(c: char): char {
    if 'A' <= c <= 'Z' then ((c as int) + 32) as char else c
  }

  function Lower(s: string): string {
    seq(|s|, i requires 0 <= i < |s| => LowerChar(s[i]))
  }

  lemma LowerIdempotent(s: string)
    ensures Lower(Lower(s)) == Lower(s)
  {
  }

  /** `s.includes(t)` */
  function Contains(s: string, t: string): bool {
    if |t| <= |s| && s[..|t|] == t then true
    else if s == [] then false
    else Contains(s[1..], t)
  }

  /** `t` occurs in `s` starting at position `i`. */
  predicate OccursAt(s: string, t: string, i: int) {
    0 <= i <= |s| - |t| && s[i..i + |t|] == t
  }

  /** `includes` is "occurs at some position". */
  lemma {:induction false} ContainsAt(s: string, t: string)
    ensures Contains(s, t) <==> exists i :: OccursAt(s, t, i)
  {
    if |t| <= |s| && s[..|t|] == t {
      assert OccursAt(s, t, 0);
    } else if s != [] {
      ContainsAt(s[1..], t);
      if exists i :: OccursAt(s, t, i) {
        var i :| OccursAt(s, t, i);
        assert i != 0;
        assert OccursAt(s[1..], t, i - 1);
      }
      if exists i :: OccursAt(s[1..], t, i) {
        var i :| OccursAt(s[1..], t, i);
        assert OccursAt(s, t, i + 1);
      }
    }
  }

  lemma ContainsEmpty(s: string)
    ensures Contains(s, "")
  {
  }

  predicate ItemMatches(p: Product, term: string) {
    Contains(Lower(p.name), Lower(term))
  }

  /** `filteredItems`: the products whose name contains the term, ignoring
      ASCII case. */
  function FilterItems(items: seq<Product>, term: string): seq<Product> {
    Keep(items, (p: Product) => ItemMatches(p, term))
  }

  /** A sale matches when its order number or its customer name (when
      present) contains the term ignoring case, or its date text contains the
      term as typed. */
  predicate SaleMatches(s: Sale, term: string) {
    || (s.orderNumber != "" && Contains(Lower(s.orderNumber), Lower(term)))
    || Contains(s.dateStr, term)
    || (s.customerName != "" && Contains(Lower(s.customerName), Lower(term)))
  }

  /** `filteredSales` */
  function FilterSales(sales: seq<Sale>, term: string): seq<Sale> {
    Keep(sales, (s: Sale) => SaleMatches(s, term))
  }

  /** The item filter keeps exactly the matching products, in their order. */
  lemma FilterItemsSpec(items: seq<Product>, more: seq<Product>, term: string)
    ensures var r := FilterItems(items, term);
      && (forall i :: 0 <= i < |r| ==> r[i] in items && ItemMatches(r[i], term))
      && (forall i :: 0 <= i < |items| && ItemMatches(items[i], term) ==> items[i] in r)
    ensures FilterItems(items + more, term) == FilterItems(items, term) + FilterItems(more, term)
  {
    KeepMembers(items, (p: Product) => ItemMatches(p, term));
    KeepConcat(items, more, (p: Product) => ItemMatches(p, term));
  }

  /** The sales filter keeps exactly the matching sales, in their order. */
  lemma FilterSalesSpec(sales: seq<Sale>, more: seq<Sale>, term: string)
    ensures var r := FilterSales(sales, term);
      && (forall i :: 0 <= i < |r| ==> r[i] in sales && SaleMatches(r[i], term))
      && (forall i :: 0 <= i < |sales| && SaleMatches(sales[i], term) ==> sales[i] in r)
    ensures FilterSales(sales + more, term) == FilterSales(sales, term) + FilterSales(more, term)
  {
    KeepMembers(sales, (s: Sale) => SaleMatches(s, term));
    KeepConcat(sales, more, (s: Sale) => SaleMatches(s, term));
  }

  /** An empty search shows everything. */
  lemma EmptySearchKeepsAll(items: seq<Product>, sales: seq<Sale>)
    ensures FilterItems(items, "") == items
    ensures FilterSales(sales, "") == sales
  {
    assert Lower("") == "";
    forall i | 0 <= i < |items| ensures ItemMatches(items[i], "") {
      ContainsEmpty(Lower(items[i].name));
    }
    KeepAll(items, (p: Product) => ItemMatches(p, ""));
    forall i | 0 <= i < |sales| ensures SaleMatches(sales[i], "") {
      ContainsEmpty(sales[i].dateStr);
    }
    KeepAll(sales, (s: Sale) => SaleMatches(s, ""));
  }

  /** The item search does not depend on the case of the term. */
  lemma ItemSearchIgnoresCase(items: seq<Product>, term: string)
    ensures FilterItems(items, Lower(term)) == FilterItems(items, term)
  {
    LowerIdempotent(term);
    KeepSameFilter(items, (p: Product) => ItemMatches(p, Lower(term)), (p: Product) => ItemMatches(p, term));
  }
}
