/** `filterAndSortProjects` of frontend/src/shared/lib/utils/filter.ts: the
    project list's title search and timestamp sort.  Timestamps are the
    milliseconds `new Date(v).getTime()` yields. */
module ProjectFilter {
  import opened Text
  import opened Sorting

  datatype ProjectItem = ProjectItem(id: nat, title: string, updatedAt: int, createdAt: int)

  datatype SortKey = UpdatedAt | CreatedAt
  datatype SortOrder = Asc | Desc

  function Key(item: ProjectItem, sortKey: SortKey): int {
    if sortKey == UpdatedAt then item.updatedAt else item.createdAt
  }

  /** The comparator `(a, b) => asc ? ka - kb : kb - ka`, read as "a may stay before b". */
  function Comparator(sortKey: SortKey, order: SortOrder): (ProjectItem, ProjectItem) -> bool {
    (a: ProjectItem, b: ProjectItem) =>
      if order == Asc then Key(a, sortKey) <= Key(b, sortKey) else Key(a, sortKey) >= Key(b, sortKey)
  }

  lemma ComparatorIsPreorder(sortKey: SortKey, order: SortOrder)
    ensures TotalPreorder(Comparator(sortKey, order))
  {
  }

  /** `(item.title || '').toLowerCase().includes(query.toLowerCase())`. */
  predicate Matches(item: ProjectItem, query: string) {
    Contains(Lower(item.title), Lower(query))
  }

  /** The items kept by the search, in their input order. */
  function Selected(items: seq<ProjectItem>, query: string): (r: seq<ProjectItem>)
    ensures |r| <= |items|
    ensures forall x :: multiset(r)[x] == if Matches(x, query) then multiset(items)[x] else 0
  {
    if items == [] then []
    else
      assert items == [items[0]] + items[1..];
      (if Matches(items[0], query) then [items[0]] else []) + Selected(items[1..], query)
  }

  /** `filterAndSortProjects(items, searchQuery, sortBy, sortOrder)`: a blank query
      keeps every item, any other keeps the matching ones; the result is sorted by
      the chosen key in the chosen direction, equal keys in input order.  The
      input sequence is a value and cannot be changed by the call. */
  function FilterAndSortProjects(items: seq<ProjectItem>, query: string, sortKey: SortKey, order: SortOrder)
    : (r: seq<ProjectItem>)
    ensures |r| <= |items|
    ensures AllSpace(query) ==> multiset(r) == multiset(items)
    ensures !AllSpace(query) ==>
              forall x :: multiset(r)[x] == if Matches(x, query) then multiset(items)[x] else 0
    ensures SortedBy(Comparator(sortKey, order), r)
    ensures order == Asc ==> forall i, j :: 0 <= i < j < |r| ==> Key(r[i], sortKey) <= Key(r[j], sortKey)
    ensures order == Desc ==> forall i, j :: 0 <= i < j < |r| ==> Key(r[i], sortKey) >= Key(r[j], sortKey)
    ensures forall c :: EquivalenceClass(Comparator(sortKey, order), r, c)
                     == EquivalenceClass(Comparator(sortKey, order), if AllSpace(query) then items else Selected(items, query), c)
  {
    TrimEmptyIffAllSpace(query);
    var kept := if Trim(query) != [] then Selected(items, query) else items;
    ComparatorIsPreorder(sortKey, order);
    SortByCorrect(Comparator(sortKey, order), kept);
    SortBy(Comparator(sortKey, order), kept)
  }

  /** Two items of equal key come out in the order they went in. */
  lemma {:induction false} EqualKeysKeepOrder(items: seq<ProjectItem>, sortKey: SortKey, order: SortOrder, c: ProjectItem)
    ensures EquivalenceClass(Comparator(sortKey, order), FilterAndSortProjects(items, "", sortKey, order), c)
         == SameKey(items, sortKey, Key(c, sortKey))
  {
    EquivalenceIsSameKey(items, sortKey, order, c);
  }

  /** The items whose key is `k`, in input order. */
  function SameKey(items: seq<ProjectItem>, sortKey: SortKey, k: int): seq<ProjectItem> {
    if items == [] then []
    else (if Key(items[0], sortKey) == k then [items[0]] else []) + SameKey(items[1..], sortKey, k)
  }

  lemma {:induction false} EquivalenceIsSameKey(items: seq<ProjectItem>, sortKey: SortKey, order: SortOrder, c: ProjectItem)
    ensures EquivalenceClass(Comparator(sortKey, order), items, c) == SameKey(items, sortKey, Key(c, sortKey))
  {
    if items != [] {
      EquivalenceIsSameKey(items[1..], sortKey, order, c);
    }
  }

  /** A query that no title contains leaves nothing. */
  lemma NoMatchEmpty(items: seq<ProjectItem>, query: string, sortKey: SortKey, order: SortOrder)
    requires !AllSpace(query)
    requires forall i :: 0 <= i < |items| ==> !Matches(items[i], query)
    ensures FilterAndSortProjects(items, query, sortKey, order) == []
  {
    var r := FilterAndSortProjects(items, query, sortKey, order);
    forall x ensures multiset(r)[x] == 0 {
      if x in items {
        var i :| 0 <= i < |items| && items[i] == x;
      }
    }
    assert multiset(r) == multiset{};
  }
}
