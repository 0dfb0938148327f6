/** Option, and the two row-table queries the store layer is built on:
    `findFirst` (the first row satisfying a condition) and a filter that keeps
    the rows a `where` clause selects, in table order. */
module Common {

  datatype Option<+T> = None | Some(value: T)

  /** True when no row before `i` satisfies `p`. */
  ghost predicate NoneBefore<T>(rows: seq<T>, p: T -> bool, i: int) {
    forall j :: 0 <= j < i && j < |rows| ==> !p(rows[j])
  }

  /** The index of the first row satisfying `p` (a `findFirst` query). */
  function FirstIndex<T>(rows: seq<T>, p: T -> bool): (r: Option<nat>)
    ensures r.Some? ==> r.value < |rows| && p(rows[r.value]) && NoneBefore(rows, p, r.value)
    ensures r.None? <==> forall j :: 0 <= j < |rows| ==> !p(rows[j])
    decreases |rows|
  {
    if |rows| == 0 then None
    else if p(rows[0]) then Some(0)
    else
      match FirstIndex(rows[1..], p)
      case None =>
        assert forall j :: 1 <= j < |rows| ==> rows[j] == rows[1..][j - 1];
        None
      case Some(k) =>
        assert forall j :: 1 <= j < k + 1 ==> rows[j] == rows[1..][j - 1];
        Some(k + 1)
  }

  /** The rows satisfying `p`, in their original order. */
  function Filter<T>(rows: seq<T>, p: T -> bool): (r: seq<T>)
    ensures |r| <= |rows|
    ensures forall k :: 0 <= k < |r| ==> r[k] in rows && p(r[k])
    ensures forall k :: 0 <= k < |rows| && p(rows[k]) ==> rows[k] in r
    decreases |rows|
  {
    if |rows| == 0 then []
    else if p(rows[0]) then [rows[0]] + Filter(rows[1..], p)
    else Filter(rows[1..], p)
  }

  lemma {:induction false} FilterAppend<T>(a: seq<T>, b: seq<T>, p: T -> bool)
    ensures Filter(a + b, p) == Filter(a, p) + Filter(b, p)
    decreases |a|
  {
    if |a| == 0 {
      assert a + b == b;
    } else {
      assert (a + b)[1..] == a[1..] + b;
      FilterAppend(a[1..], b, p);
    }
  }
}
