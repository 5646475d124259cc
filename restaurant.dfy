/** The records the app decodes from the API, and the one piece of logic on
    them: the line of filter tags under a restaurant card. */
module Models {

  import opened Text

  /** A filter tag such as "Top Rated". */
  datatype Filter = Filter(id: string, name: string, imageUrl: string)

  /** A restaurant as listed by the API; `filterIds` names the tags it carries. */
  datatype Restaurant = Restaurant(
    id: string,
    name: string,
    imageUrl: string,
    deliveryTimeMinutes: int,
    filterIds: seq<string>)

  /** Whether a restaurant is open right now, as the status endpoint reports it. */
  datatype RestaurantStatus = RestaurantStatus(isCurrentlyOpen: bool, restaurantId: string)

  /** The separator between tag names: a bullet with a space on each side. */
  const TagSeparator: string := " • "

  /** `filters.filter { filterIds.contains($0.id) }`. */
  function MatchingFilters(filterIds: seq<string>, filters: seq<Filter>): (r: seq<Filter>)
    ensures |r| <= |filters|
  {
    if |filters| == 0 then []
    else (if filters[0].id in filterIds then [filters[0]] else []) + MatchingFilters(filterIds, filters[1..])
  }

  /** A filter is kept exactly when it is one of `filters` and its id is one
      of `filterIds`. */
  lemma {:induction false} MatchingFiltersMembership(filterIds: seq<string>, filters: seq<Filter>)
    ensures forall f :: f in MatchingFilters(filterIds, filters) <==> f in filters && f.id in filterIds
  {
    if |filters| > 0 {
      MatchingFiltersMembership(filterIds, filters[1..]);
      assert filters == [filters[0]] + filters[1..];
    }
  }

  /** `filters.map { $0.name }`. */
  function Names(filters: seq<Filter>): (r: seq<string>)
    ensures |r| == |filters|
    ensures forall k :: 0 <= k < |filters| ==> r[k] == filters[k].name
  {
    seq(|filters|, k requires 0 <= k < |filters| => filters[k].name)
  }

  /** The names of the restaurant's tags, in the order of `filters`. */
  function TagNames(restaurant: Restaurant, filters: seq<Filter>): (r: seq<string>)
    ensures |r| <= |filters|
  {
    Names(MatchingFilters(restaurant.filterIds, filters))
  }

  /** `Restaurant.filterTagsText(from:)`. */
  function FilterTagsText(restaurant: Restaurant, filters: seq<Filter>): (r: string)
    ensures TagNames(restaurant, filters) == [] ==> r == ""
    ensures TagNames(restaurant, filters) != [] ==> TagNames(restaurant, filters)[0] <= r
  {
    Join(TagNames(restaurant, filters), TagSeparator)
  }

  // ---------------------------------------------------------------------
  // Which filters appear
  // ---------------------------------------------------------------------

  /** A filter's name is among the tags exactly when some filter with that
      name is in `filters` and its id is one of the restaurant's. */
  lemma TagNamesMembership(restaurant: Restaurant, filters: seq<Filter>, name: string)
    ensures name in TagNames(restaurant, filters)
        <==> exists f :: f in filters && f.id in restaurant.filterIds && f.name == name
  {
    var m := MatchingFilters(restaurant.filterIds, filters);
    MatchingFiltersMembership(restaurant.filterIds, filters);
    if name in TagNames(restaurant, filters) {
      var k :| 0 <= k < |m| && Names(m)[k] == name;
      assert m[k] in m;
    }
    if f :| f in filters && f.id in restaurant.filterIds && f.name == name {
      assert f in m;
      var k :| 0 <= k < |m| && m[k] == f;
      assert Names(m)[k] == name;
    }
  }

  /** Selecting from two lists one after the other is selecting from their
      concatenation: the selection keeps the order of `filters`. */
  lemma {:induction false} MatchingFiltersAppend(filterIds: seq<string>, a: seq<Filter>, b: seq<Filter>)
    ensures MatchingFilters(filterIds, a + b) == MatchingFilters(filterIds, a) + MatchingFilters(filterIds, b)
  {
    if |a| == 0 {
      assert a + b == b;
    } else {
      var head := if a[0].id in filterIds then [a[0]] else [];
      var restA, restB := MatchingFilters(filterIds, a[1..]), MatchingFilters(filterIds, b);
      assert (a + b)[0] == a[0];
      assert (a + b)[1..] == a[1..] + b;
      assert MatchingFilters(filterIds, a + b) == head + MatchingFilters(filterIds, a[1..] + b);
      assert MatchingFilters(filterIds, a) == head + restA;
      MatchingFiltersAppend(filterIds, a[1..], b);
      assert head + (restA + restB) == (head + restA) + restB;
    }
  }

  /** Two tagged filters appear in the text in the order they have in
      `filters`, whatever the order of the restaurant's `filterIds`. */
  lemma TagsFollowFilterOrder(restaurant: Restaurant, filters: seq<Filter>, i: nat, j: nat)
    requires i < j < |filters|
    requires filters[i].id in restaurant.filterIds && filters[j].id in restaurant.filterIds
    ensures exists p, q :: 0 <= p < q < |TagNames(restaurant, filters)|
              && TagNames(restaurant, filters)[p] == filters[i].name
              && TagNames(restaurant, filters)[q] == filters[j].name
  {
    var m := MatchingFilters(restaurant.filterIds, filters);
    var p, q := MatchedInOrder(restaurant.filterIds, filters, i, j);
    var names := TagNames(restaurant, filters);
    assert names[p] == filters[i].name && names[q] == filters[j].name;
  }

  lemma ShiftedIndex(head: seq<Filter>, tail: seq<Filter>, k: nat)
    requires k < |tail|
    ensures (head + tail)[|head| + k] == tail[k]
  {
  }

  /** Where two tagged filters land in the selection: `p` before `q`. */
  lemma {:induction false} MatchedInOrder(ids: seq<string>, filters: seq<Filter>, i: nat, j: nat)
      returns (p: nat, q: nat)
    requires i < j < |filters|
    requires filters[i].id in ids && filters[j].id in ids
    ensures var m := MatchingFilters(ids, filters);
      p < q < |m| && m[p] == filters[i] && m[q] == filters[j]
  {
    var tail := filters[1..];
    var head := if filters[0].id in ids then [filters[0]] else [];
    var mt := MatchingFilters(ids, tail);
    assert MatchingFilters(ids, filters) == head + mt;
    assert tail[j - 1] == filters[j];
    if i == 0 {
      MatchingFiltersMembership(ids, tail);
      assert filters[j] in mt;
      var k :| 0 <= k < |mt| && mt[k] == filters[j];
      assert head == [filters[0]];
      ShiftedIndex(head, mt, k);
      p, q := 0, k + 1;
    } else {
      assert tail[i - 1] == filters[i];
      var p', q' := MatchedInOrder(ids, tail, i - 1, j - 1);
      ShiftedIndex(head, mt, p');
      ShiftedIndex(head, mt, q');
      p, q := |head| + p', |head| + q';
    }
  }

  /** Only the set of the restaurant's ids matters, not their order or
      repetition. */
  lemma {:induction false} FilterTagsTextIgnoresIdOrder(r1: Restaurant, r2: Restaurant, filters: seq<Filter>)
    requires forall id :: id in r1.filterIds <==> id in r2.filterIds
    ensures FilterTagsText(r1, filters) == FilterTagsText(r2, filters)
  {
    MatchingFiltersSameIds(r1.filterIds, r2.filterIds, filters);
  }

  lemma {:induction false} MatchingFiltersSameIds(ids1: seq<string>, ids2: seq<string>, filters: seq<Filter>)
    requires forall id :: id in ids1 <==> id in ids2
    ensures MatchingFilters(ids1, filters) == MatchingFilters(ids2, filters)
  {
    if |filters| > 0 {
      MatchingFiltersSameIds(ids1, ids2, filters[1..]);
    }
  }

  // ---------------------------------------------------------------------
  // The joined text
  // ---------------------------------------------------------------------

  /** No filter of the restaurant's among `filters` (in particular, no
      filters at all): the text is empty. */
  lemma FilterTagsTextEmpty(restaurant: Restaurant, filters: seq<Filter>)
    requires forall f :: f in filters ==> f.id !in restaurant.filterIds
    ensures TagNames(restaurant, filters) == []
    ensures FilterTagsText(restaurant, filters) == ""
  {
    NoMatchingFilters(restaurant.filterIds, filters);
  }

  lemma {:induction false} NoMatchingFilters(ids: seq<string>, filters: seq<Filter>)
    requires forall f :: f in filters ==> f.id !in ids
    ensures MatchingFilters(ids, filters) == []
  {
    if |filters| > 0 {
      assert filters[0] in filters;
      NoMatchingFilters(ids, filters[1..]);
    }
  }

  /** Exactly one of `filters` is the restaurant's: the text is that
      filter's name, with no separator. */
  lemma FilterTagsTextSingle(restaurant: Restaurant, filters: seq<Filter>, k: nat)
    requires k < |filters| && filters[k].id in restaurant.filterIds
    requires forall i :: 0 <= i < |filters| && i != k ==> filters[i].id !in restaurant.filterIds
    ensures FilterTagsText(restaurant, filters) == filters[k].name
  {
    SingleMatch(restaurant.filterIds, filters, k);
    assert TagNames(restaurant, filters) == [filters[k].name];
  }

  lemma {:induction false} SingleMatch(ids: seq<string>, filters: seq<Filter>, k: nat)
    requires k < |filters| && filters[k].id in ids
    requires forall i :: 0 <= i < |filters| && i != k ==> filters[i].id !in ids
    ensures MatchingFilters(ids, filters) == [filters[k]]
  {
    var tail := filters[1..];
    assert forall i :: 0 <= i < |tail| ==> tail[i] == filters[i + 1];
    if k == 0 {
      forall f | f in tail ensures f.id !in ids {
        var i :| 0 <= i < |tail| && tail[i] == f;
      }
      NoMatchingFilters(ids, tail);
    } else {
      SingleMatch(ids, tail, k - 1);
    }
  }

  /** With k >= 1 tags whose names hold no bullet, the text holds exactly
      k - 1 bullets, one per separator. */
  lemma FilterTagsTextBulletCount(restaurant: Restaurant, filters: seq<Filter>)
    requires |TagNames(restaurant, filters)| >= 1
    requires forall f :: f in filters ==> '•' !in f.name
    ensures CountChar(FilterTagsText(restaurant, filters), '•') == |TagNames(restaurant, filters)| - 1
  {
    var names := TagNames(restaurant, filters);
    JoinCountChar(names, TagSeparator, '•');
    assert CountChar(TagSeparator, '•') == 1;
    NoBulletsInNames(restaurant, filters);
  }

  // ---------------------------------------------------------------------
  // Reading the tag line back
  // ---------------------------------------------------------------------

  /** The index at which the first `TagSeparator` in `s` starts, or `|s|`
      when there is none. */
  function FindSeparator(s: string): (i: nat)
    ensures i <= |s|
    ensures i < |s| ==> i + |TagSeparator| <= |s| && s[i..i + |TagSeparator|] == TagSeparator
    decreases |s|
  {
    if |s| < |TagSeparator| then |s|
    else if s[..|TagSeparator|] == TagSeparator then 0
    else 1 + FindSeparator(s[1..])
  }

  /** `s.components(separatedBy: TagSeparator)`: the pieces between the
      separators, left to right. */
  function SplitTags(s: string): (r: seq<string>)
    ensures |r| >= 1
    decreases |s|
  {
    var i := FindSeparator(s);
    if i == |s| then [s]
    else [s[..i]] + SplitTags(s[i + |TagSeparator|..])
  }

  /** A piece without a bullet holds no separator, and the first separator
      after it is the one that follows it. */
  lemma {:induction false} FindSeparatorAfter(part: string, rest: string)
    requires '•' !in part
    ensures FindSeparator(part) == |part|
    ensures FindSeparator(part + TagSeparator + rest) == |part|
  {
    var s := part + TagSeparator + rest;
    if |part| == 0 {
      assert s[..|TagSeparator|] == TagSeparator;
    } else {
      // The window at 0 has a bullet in the middle only if `part` does.
      assert s[1] == (if |part| >= 2 then part[1] else ' ');
      assert s[..|TagSeparator|][1] == s[1];
      if |part| >= 2 {
        assert part[1] in part;
      }
      assert part[1..] + TagSeparator + rest == s[1..];
      FindSeparatorAfter(part[1..], rest);
      if |part| >= |TagSeparator| {
        assert part[..|TagSeparator|][1] == part[1];
      }
    }
  }

  /** Splitting a joined line recovers its pieces, provided none of them
      holds a bullet. */
  lemma {:induction false} SplitJoin(parts: seq<string>)
    requires |parts| >= 1
    requires forall k :: 0 <= k < |parts| ==> '•' !in parts[k]
    ensures SplitTags(Join(parts, TagSeparator)) == parts
  {
    if |parts| == 1 {
      FindSeparatorAfter(parts[0], "");
    } else {
      var rest := Join(parts[1..], TagSeparator);
      var s := parts[0] + TagSeparator + rest;
      assert Join(parts, TagSeparator) == s;
      FindSeparatorAfter(parts[0], rest);
      assert s[..|parts[0]|] == parts[0];
      assert s[|parts[0]| + |TagSeparator|..] == rest;
      SplitJoin(parts[1..]);
      assert [parts[0]] + parts[1..] == parts;
    }
  }

  /** When some tag matches and no filter name holds a bullet, splitting the
      tag line on its separator gives back exactly the matched names, in
      order. */
  lemma FilterTagsTextSplits(restaurant: Restaurant, filters: seq<Filter>)
    requires |TagNames(restaurant, filters)| >= 1
    requires forall f :: f in filters ==> '•' !in f.name
    ensures SplitTags(FilterTagsText(restaurant, filters)) == TagNames(restaurant, filters)
  {
    var m := MatchingFilters(restaurant.filterIds, filters);
    MatchingFiltersMembership(restaurant.filterIds, filters);
    forall k | 0 <= k < |m| ensures '•' !in Names(m)[k] {
      assert m[k] in m;
    }
    SplitJoin(Names(m));
  }

  lemma NoBulletsInNames(restaurant: Restaurant, filters: seq<Filter>)
    requires forall f :: f in filters ==> '•' !in f.name
    ensures CountCharIn(TagNames(restaurant, filters), '•') == 0
  {
    var m := MatchingFilters(restaurant.filterIds, filters);
    MatchingFiltersMembership(restaurant.filterIds, filters);
    forall k | 0 <= k < |m| ensures '•' !in Names(m)[k] {
      assert m[k] in m;
    }
    NoCharCount(Names(m), '•');
  }

  lemma {:induction false} NoCharCount(parts: seq<string>, c: char)
    requires forall k :: 0 <= k < |parts| ==> c !in parts[k]
    ensures CountCharIn(parts, c) == 0
  {
    if |parts| > 0 {
      NoCharInString(parts[0], c);
      NoCharCount(parts[1..], c);
    }
  }

  lemma {:induction false} NoCharInString(s: string, c: char)
    requires c !in s
    ensures CountChar(s, c) == 0
  {
    if |s| > 0 {
      assert s[0] != c;
      assert forall k :: 0 <= k < |s[1..]| ==> s[1..][k] == s[k + 1];
      NoCharInString(s[1..], c);
    }
  }

  /** Reordering `filters` only reorders the tags: the same names, each as
      often as before. */
  lemma {:induction false} TagNamesPermutation(restaurant: Restaurant, f1: seq<Filter>, f2: seq<Filter>)
    requires multiset(f1) == multiset(f2)
    ensures multiset(TagNames(restaurant, f1)) == multiset(TagNames(restaurant, f2))
  {
    var ids := restaurant.filterIds;
    MatchingFiltersMultiset(ids, f1);
    MatchingFiltersMultiset(ids, f2);
    var m1, m2 := MatchingFilters(ids, f1), MatchingFilters(ids, f2);
    assert multiset(m1) == multiset(m2) by {
      forall f ensures multiset(m1)[f] == multiset(m2)[f] { }
    }
    NamesMultiset(m1, m2);
  }

  lemma {:induction false} MatchingFiltersMultiset(ids: seq<string>, filters: seq<Filter>)
    ensures forall f :: multiset(MatchingFilters(ids, filters))[f] == if f.id in ids then multiset(filters)[f] else 0
  {
    if |filters| > 0 {
      MatchingFiltersMultiset(ids, filters[1..]);
      assert filters == [filters[0]] + filters[1..];
    }
  }

  /** Names of two permutations of each other are permutations of each other. */
  lemma {:induction false} NamesMultiset(a: seq<Filter>, b: seq<Filter>)
    requires multiset(a) == multiset(b)
    ensures multiset(Names(a)) == multiset(Names(b))
    decreases |a|
  {
    if |a| > 0 {
      assert a[0] in multiset(b);
      var k :| 0 <= k < |b| && b[k] == a[0];
      var rest := b[..k] + b[k + 1..];
      PermutedTail(a, b, k);
      NamesMultiset(a[1..], rest);
      NamesOfPermutedTail(a, b, k);
    } else {
      assert |multiset(b)| == 0;
    }
  }

  /** Matching `a[0]` with `b[k]` leaves permutations of each other behind. */
  lemma PermutedTail(a: seq<Filter>, b: seq<Filter>, k: nat)
    requires multiset(a) == multiset(b)
    requires 0 < |a| && k < |b| && b[k] == a[0]
    ensures multiset(a[1..]) == multiset(b[..k] + b[k + 1..])
  {
    RemoveAt(b, k);
    assert a == [a[0]] + a[1..];
    Cancel(multiset(a[1..]), multiset(b[..k] + b[k + 1..]), a[0]);
  }

  lemma NamesOfPermutedTail(a: seq<Filter>, b: seq<Filter>, k: nat)
    requires 0 < |a| && k < |b| && b[k] == a[0]
    requires multiset(Names(a[1..])) == multiset(Names(b[..k] + b[k + 1..]))
    ensures multiset(Names(a)) == multiset(Names(b))
  {
    assert Names(a) == [a[0].name] + Names(a[1..]);
    RemoveAt(Names(b), k);
    NamesRemoveAt(b, k);
  }

  lemma NamesRemoveAt(b: seq<Filter>, k: nat)
    requires k < |b|
    ensures Names(b[..k] + b[k + 1..]) == Names(b)[..k] + Names(b)[k + 1..]
  {
    var rest := b[..k] + b[k + 1..];
    var expected := Names(b)[..k] + Names(b)[k + 1..];
    forall i | 0 <= i < |expected| ensures Names(rest)[i] == expected[i] {
      if i < k {
        assert rest[i] == b[i];
      } else {
        assert rest[i] == b[i + 1];
      }
    }
  }

  /** Taking out the element at `k` takes one copy of it out of the multiset. */
  lemma RemoveAt<T>(s: seq<T>, k: nat)
    requires k < |s|
    ensures multiset(s) == multiset(s[..k] + s[k + 1..]) + multiset{s[k]}
  {
    assert s == s[..k] + [s[k]] + s[k + 1..];
  }

  lemma Cancel<T>(m1: multiset<T>, m2: multiset<T>, x: T)
    requires multiset{x} + m1 == m2 + multiset{x}
    ensures m1 == m2
  {
    forall y ensures m1[y] == m2[y] {
      assert (multiset{x} + m1)[y] == (m2 + multiset{x})[y];
    }
  }
}
