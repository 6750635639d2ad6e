/** The two query operations the views use: `filter(...)` over a table and
    `.get()` on the filtered rows, with Django's three outcomes. */
module Query {
  import opened Store

  /** The outcome of `QuerySet.get()`: exactly one row, none
      (`DoesNotExist`) or several (`MultipleObjectsReturned`). */
  datatype Get<T> = One(value: T) | Zero | Multiple

  /** `filter(...)`: the rows satisfying `p`, in table order. */
  function Filter<T(!new)>(s: seq<T>, p: T -> bool): (r: seq<T>)
    ensures |r| <= |s|
    ensures forall x :: x in r <==> x in s && p(x)
    ensures Distinct(s) ==> Distinct(r)
  {
    if |s| == 0 then []
    else
      var rest := Filter(s[1..], p);
      assert forall x :: x in s[1..] ==> x in s;
      if p(s[0]) then [s[0]] + rest else rest
  }

  /** `.get()` on an evaluated query. */
  function Single<T>(rows: seq<T>): (g: Get<T>)
    ensures g.Zero? <==> |rows| == 0
    ensures g.One? <==> |rows| == 1
    ensures g.One? ==> g.value in rows
  {
    if |rows| == 0 then Zero
    else if |rows| == 1 then One(rows[0])
    else Multiple
  }

  /** No row of `s` satisfies `p`. */
  ghost predicate NoMatch<T>(s: seq<T>, p: T -> bool) {
    forall x :: x in s ==> !p(x)
  }

  /** `x` is a row of `s` satisfying `p`, and no other row does. */
  ghost predicate OnlyMatch<T>(s: seq<T>, p: T -> bool, x: T) {
    x in s && p(x) && forall y :: y in s && p(y) ==> y == x
  }

  /** Two different rows of `s` satisfy `p`. */
  ghost predicate SeveralMatch<T>(s: seq<T>, p: T -> bool) {
    exists x, y :: x in s && y in s && x != y && p(x) && p(y)
  }

  /** `.get()` raises `DoesNotExist` exactly when no row satisfies `p`,
      whether or not the table repeats rows. */
  lemma GetZeroIffNoMatch<T(!new)>(s: seq<T>, p: T -> bool)
    ensures Single(Filter(s, p)) == Zero <==> NoMatch(s, p)
  {
    var r := Filter(s, p);
    if |r| > 0 {
      assert r[0] in r;
    }
  }

  /** `.get()` after `filter(p)` on a table without repeated rows: its
      outcome is decided by how many rows satisfy `p`. */
  lemma GetCases<T(!new)>(s: seq<T>, p: T -> bool, x: T)
    requires Distinct(s)
    ensures Single(Filter(s, p)) == Zero <==> NoMatch(s, p)
    ensures Single(Filter(s, p)) == One(x) <==> OnlyMatch(s, p, x)
    ensures Single(Filter(s, p)) == Multiple <==> SeveralMatch(s, p)
  {
    var r := Filter(s, p);
    if |r| == 1 {
      assert r == [r[0]];
    } else if |r| > 1 {
      assert r[0] != r[1];
      assert r[0] in r && r[1] in r;
    }
  }
}
