/** Listings: newest first with ties by ID, cut into pages. */
module Listing {
  import opened Json

  /** What a listing sorts on. */
  datatype Stamp = Stamp(updatedAt: int, id: string)

  datatype Pagination = Pagination(limit: int, offset: int)

  // ---------------------------------------------------------------- the order

  /** Go's string comparison. */
  predicate Less(a: string, b: string) {
    b != "" && (a == "" || a[0] < b[0] || (a[0] == b[0] && Less(a[1..], b[1..])))
  }

  /** What it means: a character is smaller where they first differ, or the one goes on where the other ends. */
  predicate IsAheadOf(a: string, b: string) {
    exists n | 0 <= n <= |a| && n < |b| :: a[..n] == b[..n] && (n == |a| || a[n] < b[n])
  }

  /** Newer, or as new with an ID that is ahead. */
  predicate ComesBefore(updatedA: int, idA: string, updatedB: int, idB: string) {
    updatedA > updatedB || (updatedA == updatedB && IsAheadOf(idA, idB))
  }

  lemma {:induction false} LessIff(a: string, b: string)
    ensures Less(a, b) <==> IsAheadOf(a, b)
  {
    if a != "" && b != "" && a[0] == b[0] {
      LessIff(a[1..], b[1..]);
      if IsAheadOf(a[1..], b[1..]) {
        var n: nat :| n <= |a[1..]| && n < |b[1..]| && a[1..][..n] == b[1..][..n] && (n == |a[1..]| || a[1..][n] < b[1..][n]);
        assert a[..n + 1] == [a[0]] + a[1..][..n] && b[..n + 1] == [b[0]] + b[1..][..n];
      }
      if IsAheadOf(a, b) {
        var n: nat :| n <= |a| && n < |b| && a[..n] == b[..n] && (n == |a| || a[n] < b[n]);
        assert n > 0 && a[1..][..n - 1] == a[..n][1..] && b[1..][..n - 1] == b[..n][1..];
      }
    } else if b != "" && (a == "" || a[0] < b[0]) {
      assert a[..0] == b[..0];
    } else {
      assert forall n | 0 < n <= |a| && n < |b| :: a[..n][0] == a[0] && b[..n][0] == b[0];
    }
  }

  /** The comparison every listing passes to `sort.Slice`. */
  predicate Before(a: Stamp, b: Stamp) {
    if a.updatedAt == b.updatedAt then Less(a.id, b.id) else a.updatedAt > b.updatedAt
  }

  lemma BeforeIff(a: Stamp, b: Stamp)
    ensures Before(a, b) <==> ComesBefore(a.updatedAt, a.id, b.updatedAt, b.id)
  {
    LessIff(a.id, b.id);
  }

  lemma {:induction false} LessIsStrict(a: string, b: string)
    ensures !(Less(a, b) && Less(b, a))
    ensures a != b <==> Less(a, b) || Less(b, a)
  {
    if a != "" && b != "" && a[0] == b[0] {
      LessIsStrict(a[1..], b[1..]);
      assert a == [a[0]] + a[1..] && b == [b[0]] + b[1..];
    }
  }

  lemma {:induction false} LessIsTransitive(a: string, b: string, c: string)
    requires Less(a, b) && Less(b, c)
    ensures Less(a, c)
  {
    if a != "" && a[0] == b[0] == c[0] {
      LessIsTransitive(a[1..], b[1..], c[1..]);
    }
  }

  /** Newest first with ties by ID is a strict total order. */
  lemma BeforeIsStrictTotal(a: Stamp, b: Stamp, c: Stamp)
    ensures !(Before(a, b) && Before(b, a))
    ensures a != b <==> Before(a, b) || Before(b, a)
    ensures Before(a, b) && Before(b, c) ==> Before(a, c)
  {
    LessIsStrict(a.id, b.id);
    if Before(a, b) && Before(b, c) && a.updatedAt == c.updatedAt {
      LessIsTransitive(a.id, b.id, c.id);
    }
  }

  // ---------------------------------------------------------------- sorted listings

  ghost predicate Sorted<T>(s: seq<T>, stamp: T -> Stamp) {
    forall i, j | 0 <= i < j < |s| :: Before(stamp(s[i]), stamp(s[j]))
  }

  /** The matching values of a map, in order. */
  ghost predicate IsListing<K, T(!new)>(s: seq<T>, m: map<K, T>, matches: T -> bool, stamp: T -> Stamp) {
    && Sorted(s, stamp)
    && forall x :: x in s <==> x in m.Values && matches(x)
  }

  lemma HeadIsUnique<T>(s: seq<T>, stamp: T -> Stamp)
    requires Sorted(s, stamp) && s != []
    ensures s[0] !in s[1..]
  {
    BeforeIsStrictTotal(stamp(s[0]), stamp(s[0]), stamp(s[0]));
  }

  lemma {:induction false} SortedIsUnique<T(!new)>(s: seq<T>, t: seq<T>, stamp: T -> Stamp)
    requires Sorted(s, stamp) && Sorted(t, stamp) && (forall x :: x in s <==> x in t)
    ensures s == t
  {
    assert t != [] ==> t[0] in s;
    if s != [] {
      assert s[0] in t && t != [] && t[0] in s;
      if s[0] != t[0] {
        BeforeIsStrictTotal(stamp(s[0]), stamp(t[0]), stamp(s[0]));
        assert false;
      }
      HeadIsUnique(s, stamp);
      HeadIsUnique(t, stamp);
      forall x ensures x in s[1..] <==> x in t[1..] {
        assert x in s <==> x == s[0] || x in s[1..];
        assert x in t <==> x == t[0] || x in t[1..];
      }
      SortedIsUnique(s[1..], t[1..], stamp);
    }
  }

  /** So a listing does not depend on how the map was walked or which sort was used. */
  lemma ListingIsUnique<K, T(!new)>(s: seq<T>, t: seq<T>, m: map<K, T>, matches: T -> bool, stamp: T -> Stamp)
    requires IsListing(s, m, matches, stamp) && IsListing(t, m, matches, stamp)
    ensures s == t
  {
    SortedIsUnique(s, t, stamp);
  }

  // ---------------------------------------------------------------- sort.Slice

  /** Stands in for `sort.Slice`; by `ListingIsUnique` any correct sort gives the same result. */
  method SortSlice<T>(items: seq<T>, stamp: T -> Stamp) returns (sorted: seq<T>)
    requires forall i, j | 0 <= i < j < |items| :: stamp(items[i]) != stamp(items[j])
    ensures Sorted(sorted, stamp) && multiset(sorted) == multiset(items)
  {
    sorted := [];
    for i := 0 to |items|
      invariant Sorted(sorted, stamp) && multiset(sorted) == multiset(items[..i])
    {
      assert items[..i + 1] == items[..i] + [items[i]];
      forall x | x in sorted ensures stamp(x) != stamp(items[i]) {
        assert x in multiset(sorted);
        assert x in items[..i];
      }
      sorted := Insert(sorted, items[i], stamp);
    }
    assert items[..|items|] == items;
  }

  method Insert<T>(sorted: seq<T>, x: T, stamp: T -> Stamp) returns (r: seq<T>)
    requires Sorted(sorted, stamp) && forall y | y in sorted :: stamp(y) != stamp(x)
    ensures Sorted(r, stamp) && multiset(r) == multiset(sorted) + multiset{x}
  {
    var i := 0;
    while i < |sorted| && Before(stamp(sorted[i]), stamp(x))
      invariant 0 <= i <= |sorted|
      invariant forall j | 0 <= j < i :: Before(stamp(sorted[j]), stamp(x))
    {
      i := i + 1;
    }
    r := sorted[..i] + [x] + sorted[i..];
    assert sorted == sorted[..i] + sorted[i..];
    forall j | i <= j < |sorted| ensures Before(stamp(x), stamp(sorted[j])) {
      BeforeIsStrictTotal(stamp(x), stamp(sorted[i]), stamp(sorted[j]));
    }
  }

  // ---------------------------------------------------------------- pages

  /** `ParsePagination`, with the texts already read as integers; `Some(None)` did not parse. */
  function ParsePagination(limit: Option<Option<int>>, offset: Option<Option<int>>): (r: Option<Pagination>)
    ensures r.Some? ==> 1 <= r.value.limit <= 100 && 0 <= r.value.offset
    ensures r.Some? <==> (limit.Some? ==> limit.value.Some? && 1 <= limit.value.value <= 100) &&
                         (offset.Some? ==> offset.value.Some? && 0 <= offset.value.value)
    ensures r.Some? ==> (r.value.limit == if limit.Some? then limit.value.value else 50)
    ensures r.Some? ==> (r.value.offset == if offset.Some? then offset.value.value else 0)
  {
    if limit.Some? && (limit.value.None? || limit.value.value < 1 || limit.value.value > 100) then None
    else if offset.Some? && (offset.value.None? || offset.value.value < 0) then None
    else Some(Pagination(limit.GetOr(Some(50)).value, offset.GetOr(Some(0)).value))
  }

  /** `paginate`. */
  function Page<T>(items: seq<T>, p: Pagination): seq<T>
    requires 0 <= p.offset && 0 <= p.limit
  {
    if p.offset >= |items| then []
    else items[p.offset..if p.offset + p.limit > |items| then |items| else p.offset + p.limit]
  }

  /** The pages at offsets 0, limit, 2 * limit and so on, one after the other. */
  function Pages<T>(items: seq<T>, limit: int, n: nat): seq<T>
    requires 0 <= limit
  {
    if n == 0 then [] else Pages(items, limit, n - 1) + Page(items, Pagination(limit, (n - 1) * limit))
  }

  /** Pages in a row are a prefix of the listing: none lost, none repeated. */
  lemma {:induction false} PagesConcatenate<T>(items: seq<T>, limit: int, n: nat)
    requires 1 <= limit
    ensures Pages(items, limit, n) == items[..if n * limit <= |items| then n * limit else |items|]
  {
    if n > 0 {
      PagesConcatenate(items, limit, n - 1);
      var start := (n - 1) * limit;
      assert n * limit == start + limit;
    }
  }

  /** A page of the one listing there is, with the number of matches. */
  ghost predicate IsPageOf<K, T(!new)>(items: seq<T>, total: nat, m: map<K, T>, matches: T -> bool, stamp: T -> Stamp,
                                       page: Pagination)
    requires 0 <= page.offset && 0 <= page.limit
  {
    exists all :: IsListing(all, m, matches, stamp) && items == Page(all, page) && total == |all|
  }

  ghost predicate IsAfter(a: Stamp, b: Stamp) {
    ComesBefore(b.updatedAt, b.id, a.updatedAt, a.id)
  }

  /** What a page holds: matches only, each before the next one; every other match comes before the first or
      after the last; and as many come before the first as the offset says. */
  ghost predicate IsCutFrom<T>(items: seq<T>, total: nat, matching: set<T>, stamp: T -> Stamp, page: Pagination) {
    && total == |matching| && (forall x | x in items :: x in matching)
    && (forall i, j | 0 <= i < j < |items| :: IsAfter(stamp(items[j]), stamp(items[i])))
    && (forall x | x in matching && x !in items && items != [] ::
          IsAfter(stamp(items[0]), stamp(x)) || IsAfter(stamp(x), stamp(items[|items| - 1])))
    && (items != [] ==> |set x | x in matching && IsAfter(stamp(items[0]), stamp(x))| == page.offset)
    && |items| == if total <= page.offset then 0
                  else if total - page.offset < page.limit then total - page.offset else page.limit
  }

  lemma SortedMeans<T>(all: seq<T>, stamp: T -> Stamp)
    requires Sorted(all, stamp)
    ensures forall i, j | 0 <= i < j < |all| :: IsAfter(stamp(all[j]), stamp(all[i]))
    ensures forall i, j | 0 <= i < j < |all| :: all[i] != all[j]
  {
    forall i, j | 0 <= i < j < |all| ensures IsAfter(stamp(all[j]), stamp(all[i])) && all[i] != all[j] {
      BeforeIff(stamp(all[i]), stamp(all[j]));
      BeforeIsStrictTotal(stamp(all[i]), stamp(all[j]), stamp(all[i]));
    }
  }

  /** What comes before element n of a sorted listing is what stands before it. */
  lemma AheadOfNth<T>(all: seq<T>, matching: set<T>, stamp: T -> Stamp, n: nat)
    requires Sorted(all, stamp) && n < |all| && forall x :: x in all <==> x in matching
    ensures |set x | x in matching && IsAfter(stamp(all[n]), stamp(x))| == n
  {
    SortedMeans(all, stamp);
    forall x ensures x in matching && IsAfter(stamp(all[n]), stamp(x)) <==> x in all[..n] {
      if x in matching && IsAfter(stamp(all[n]), stamp(x)) {
        var i :| 0 <= i < |all| && all[i] == x;
        BeforeIff(stamp(x), stamp(all[n]));
        BeforeIsStrictTotal(stamp(x), stamp(all[n]), stamp(x));
      }
    }
    CountDistinct(all[..n]);
    assert (set x | x in matching && IsAfter(stamp(all[n]), stamp(x))) == set x | x in all[..n];
  }

  lemma PageIsCut<T(!new)>(all: seq<T>, matching: set<T>, stamp: T -> Stamp, page: Pagination)
    requires 0 <= page.offset && 0 <= page.limit
    requires Sorted(all, stamp) && forall x :: x in all <==> x in matching
    ensures IsCutFrom(Page(all, page), |all|, matching, stamp, page)
  {
    SortedMeans(all, stamp);
    CountDistinct(all);
    assert (set x | x in all) == matching;
    var items := Page(all, page);
    if items != [] {
      AheadOfNth(all, matching, stamp, page.offset);
      assert forall j | 0 <= j < |items| :: items[j] == all[page.offset + j];
      assert forall j | page.offset <= j < page.offset + |items| :: all[j] == items[j - page.offset];
      forall x | x in matching && x !in items
        ensures IsAfter(stamp(items[0]), stamp(x)) || IsAfter(stamp(x), stamp(items[|items| - 1]))
      {
        var i :| 0 <= i < |all| && all[i] == x;
      }
    }
  }

  /** A result is determined by the contents of the map, however it was walked and sorted. */
  lemma PageIsUnique<K, T(!new)>(items: seq<T>, total: nat, items': seq<T>, total': nat,
                                 m: map<K, T>, matches: T -> bool, stamp: T -> Stamp, page: Pagination)
    requires 0 <= page.offset && 0 <= page.limit
    requires IsPageOf(items, total, m, matches, stamp, page) && IsPageOf(items', total', m, matches, stamp, page)
    ensures items == items' && total == total'
  {
    var s :| IsListing(s, m, matches, stamp) && items == Page(s, page) && total == |s|;
    var t :| IsListing(t, m, matches, stamp) && items' == Page(t, page) && total' == |t|;
    ListingIsUnique(s, t, m, matches, stamp);
  }

  /** The loop of a list method: the values that match, sorted. */
  method Matching<K, T(==, !new)>(m: map<K, T>, matches: T -> bool, stamp: T -> Stamp) returns (all: seq<T>)
    requires forall a, b | a in m && b in m && a != b :: stamp(m[a]) != stamp(m[b])
    ensures IsListing(all, m, matches, stamp)
    ensures |all| == |set k | k in m && matches(m[k])|
  {
    var found: seq<T> := [];
    var todo := m.Keys;
    ghost var keys: seq<K> := [];
    while todo != {}
      invariant todo <= m.Keys && |keys| == |found|
      invariant forall i | 0 <= i < |keys| :: keys[i] in m.Keys - todo && found[i] == m[keys[i]] && matches(found[i])
      invariant forall i, j | 0 <= i < j < |keys| :: keys[i] != keys[j]
      invariant forall k | k in m.Keys - todo && matches(m[k]) :: k in keys
    {
      var k :| k in todo;
      todo := todo - {k};
      if matches(m[k]) {
        found, keys := found + [m[k]], keys + [k];
      }
    }
    CountDistinct(keys);
    assert (set k | k in keys) == set k | k in m && matches(m[k]);
    all := SortSlice(found, stamp);
    forall x ensures x in all <==> x in m.Values && matches(x) {
      assert x in all <==> x in multiset(all);
      assert x in found <==> x in multiset(found);
      if x in m.Values && matches(x) {
        var k :| k in m && m[k] == x;
        assert k in keys;
      }
    }
    assert |multiset(all)| == |multiset(found)|;
  }

  /** A page of the matches, and how many there are. */
  method ListMatching<K, T(==, !new)>(m: map<K, T>, matches: T -> bool, stamp: T -> Stamp, page: Pagination)
    returns (items: seq<T>, total: nat)
    requires 0 <= page.offset && 0 <= page.limit
    requires forall a, b | a in m && b in m && a != b :: stamp(m[a]) != stamp(m[b])
    ensures IsPageOf(items, total, m, matches, stamp, page)
    ensures total == |set k | k in m && matches(m[k])|
    ensures IsCutFrom(items, total, (set x | x in m.Values && matches(x)), stamp, page)
  {
    var all := Matching(m, matches, stamp);
    items, total := Page(all, page), |all|;
    PageIsCut(all, (set x | x in m.Values && matches(x)), stamp, page);
  }

  lemma {:induction false} CountDistinct<K>(keys: seq<K>)
    requires forall i, j | 0 <= i < j < |keys| :: keys[i] != keys[j]
    ensures |set k | k in keys| == |keys|
  {
    if keys != [] {
      var rest := keys[..|keys| - 1];
      CountDistinct(rest);
      assert (set k | k in keys) == (set k | k in rest) + {keys[|keys| - 1]};
    }
  }
}
