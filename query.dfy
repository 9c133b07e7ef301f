/** The query shapes the handlers use on a table held as a sequence of rows:
    `.filter(...).first()`, `.filter(...).all()`, and ordering by a key with
    the largest key first (`order_by(col.desc())`, `sort(key=..., reverse=True)`). */
module Query {
  import opened Wrappers

  /** Position of the first row satisfying `p`. */
  function FirstIndex<T>(rows: seq<T>, p: T -> bool): (r: Option<nat>)
    ensures r.Some? ==> r.value < |rows| && p(rows[r.value])
    ensures r.Some? ==> forall j :: 0 <= j < r.value ==> !p(rows[j])
    ensures r.None? ==> forall j :: 0 <= j < |rows| ==> !p(rows[j])
  {
    if rows == [] then None
    else if p(rows[0]) then Some(0)
    else match FirstIndex(rows[1..], p)
      case None => None
      case Some(i) => Some(i + 1)
  }

  /** `.filter(p).first()`: the first matching row, or None when none matches. */
  function First<T>(rows: seq<T>, p: T -> bool): (r: Option<T>)
    ensures r.Some? ==> r.value in rows && p(r.value)
    ensures r.None? <==> forall x :: x in rows ==> !p(x)
  {
    match FirstIndex(rows, p)
    case None => None
    case Some(i) => Some(rows[i])
  }

  /** `.filter(p).all()`: the matching rows, each as often as it occurs. */
  function Filter<T(!new)>(rows: seq<T>, p: T -> bool): (r: seq<T>)
    ensures forall x :: multiset(r)[x] == if p(x) then multiset(rows)[x] else 0
    ensures forall x :: x in r <==> x in rows && p(x)
  {
    if rows == [] then []
    else
      var rest := Filter(rows[1..], p);
      assert rows == [rows[0]] + rows[1..];
      if p(rows[0]) then [rows[0]] + rest else rest
  }

  /** Filtering a list with one more row in front keeps that row when it
      matches, and the rest as before. */
  lemma FilterLength<T(!new)>(rows: seq<T>, p: T -> bool)
    requires rows != []
    ensures |Filter(rows, p)| == |Filter(rows[1..], p)| + (if p(rows[0]) then 1 else 0)
  {
  }

  predicate SortedDescBy<T>(s: seq<T>, key: T -> int) {
    forall i, j :: 0 <= i < j < |s| ==> key(s[i]) >= key(s[j])
  }

  /** Places `x` before the first element whose key is not larger, so that
      among equal keys the inserted element comes first. */
  function InsertDesc<T>(x: T, s: seq<T>, key: T -> int): (r: seq<T>)
    ensures multiset(r) == multiset(s) + multiset{x}
    ensures |r| == |s| + 1
  {
    if s == [] then [x]
    else if key(s[0]) <= key(x) then [x] + s
    else
      assert s == [s[0]] + s[1..];
      [s[0]] + InsertDesc(x, s[1..], key)
  }

  /** Inserting into a sorted list keeps it sorted; the new head is `x` or
      the old head. */
  lemma {:induction false} InsertDescSorted<T>(x: T, s: seq<T>, key: T -> int)
    requires SortedDescBy(s, key)
    ensures SortedDescBy(InsertDesc(x, s, key), key)
    ensures InsertDesc(x, s, key)[0] == x || (s != [] && InsertDesc(x, s, key)[0] == s[0])
  {
    if s == [] {
    } else if key(s[0]) <= key(x) {
      ConsSorted(x, s, key);
    } else {
      var rest := InsertDesc(x, s[1..], key);
      InsertDescSorted(x, s[1..], key);
      assert rest[0] == x || rest[0] == s[1];
      ConsSorted(s[0], rest, key);
    }
  }

  /** A row no smaller than the head of a sorted list can go in front. */
  lemma ConsSorted<T>(a: T, rest: seq<T>, key: T -> int)
    requires SortedDescBy(rest, key) && rest != [] && key(a) >= key(rest[0])
    ensures SortedDescBy([a] + rest, key)
  {
    assert forall j :: 0 <= j < |rest| ==> key(rest[0]) >= key(rest[j]);
  }

  /** Sorts by `key`, largest first: insertion of each row, front to back,
      into the sorted rest. */
  function SortDescBy<T>(s: seq<T>, key: T -> int): (r: seq<T>)
    ensures SortedDescBy(r, key)
    ensures multiset(r) == multiset(s)
  {
    if s == [] then []
    else
      assert s == [s[0]] + s[1..];
      var t := SortDescBy(s[1..], key);
      InsertDescSorted(s[0], t, key);
      InsertDesc(s[0], t, key)
  }
}
