/** ORDER BY as a function: the one ascending arrangement of a finite set of rows. */
module Ordering {

  predicate StrLess(a: string, b: string) {
    if b == "" then false
    else if a == "" then true
    else a[0] < b[0] || (a[0] == b[0] && StrLess(a[1..], b[1..]))
  }

  /** a comes first in a dictionary: at the first place where they differ, a has ended or
      has the smaller character. */
  ghost predicate Precedes(a: string, b: string) { exists i :: DiffersAt(a, b, i) }

  predicate DiffersAt(a: string, b: string, i: nat) {
    i < |b| && i <= |a| && a[..i] == b[..i] && (i == |a| || a[i] < b[i])
  }

  lemma {:induction false} StrLessIsPrecedes(a: string, b: string)
    ensures StrLess(a, b) <==> Precedes(a, b)
  {
    if b != "" && (a == "" || a[0] < b[0]) {
      assert DiffersAt(a, b, 0);
    } else if b != "" {
      if a[0] == b[0] { StrLessIsPrecedes(a[1..], b[1..]); }
      forall i: nat | DiffersAt(a, b, i) ensures a[0] == b[0] && DiffersAt(a[1..], b[1..], i - 1) {
        assert a[..i][0] == b[..i][0];
        assert a[1..][..i - 1] == a[..i][1..] && b[1..][..i - 1] == b[..i][1..];
      }
      forall i: nat | a[0] == b[0] && DiffersAt(a[1..], b[1..], i) ensures DiffersAt(a, b, i + 1) {
        assert a[..i + 1] == [a[0]] + a[1..][..i] && b[..i + 1] == [b[0]] + b[1..][..i];
      }
    }
  }

  lemma StrTotal(a: string, b: string)
    ensures a == b || StrLess(a, b) || StrLess(b, a)
  {
    if a != "" && b != "" && a[0] == b[0] {
      StrTotal(a[1..], b[1..]);
      assert a == [a[0]] + a[1..] && b == [b[0]] + b[1..];
    }
  }

  lemma StrTransitive(a: string, b: string, c: string)
    requires StrLess(a, b) && StrLess(b, c)
    ensures StrLess(a, c)
  {
    if a != "" && a[0] == b[0] == c[0] {
      StrTransitive(a[1..], b[1..], c[1..]);
    }
  }

  lemma StrIrreflexive(a: string)
    ensures !StrLess(a, a)
  {
    if a != "" { StrIrreflexive(a[1..]); }
  }

  /** A result row of a query, with the columns it is ordered by. */
  datatype Row = Row(rank: int, key: string, size: int)

  predicate Before(a: Row, b: Row) {
    || a.rank < b.rank
    || (a.rank == b.rank && StrLess(a.key, b.key))
    || (a.rank == b.rank && a.key == b.key && a.size < b.size)
  }

  lemma BeforeIsStrictOrder()
    ensures forall a :: !Before(a, a)
    ensures forall a, b :: Before(a, b) || Before(b, a) || a == b
    ensures forall a, b, c :: Before(a, b) && Before(b, c) ==> Before(a, c)
  {
    forall a: Row ensures !Before(a, a) { StrIrreflexive(a.key); }
    forall a: Row, b: Row ensures Before(a, b) || Before(b, a) || a == b { StrTotal(a.key, b.key); }
    forall a: Row, b: Row, c: Row | Before(a, b) && Before(b, c) ensures Before(a, c) {
      if StrLess(a.key, b.key) && StrLess(b.key, c.key) { StrTransitive(a.key, b.key, c.key); }
    }
  }

  predicate IsFirst(rows: set<Row>, m: Row) {
    m in rows && forall r :: r in rows ==> r == m || Before(m, r)
  }

  lemma FirstExists(rows: set<Row>)
    requires rows != {}
    ensures exists m :: IsFirst(rows, m)
  {
    BeforeIsStrictOrder();
    var x :| x in rows;
    if rows == {x} {
      assert IsFirst(rows, x);
    } else {
      FirstExists(rows - {x});
      var m :| IsFirst(rows - {x}, m);
      assert IsFirst(rows, if Before(x, m) then x else m);
    }
  }

  predicate Ascending(s: seq<Row>) {
    forall i, j :: 0 <= i < j < |s| ==> Before(s[i], s[j])
  }

  function OrderBy(rows: set<Row>): (out: seq<Row>)
    ensures Ascending(out)
    ensures forall r :: r in out <==> r in rows
    ensures |out| == |rows|
  {
    if rows == {} then []
    else
      FirstExists(rows);
      BeforeIsStrictOrder();
      var m :| IsFirst(rows, m);
      [m] + OrderBy(rows - {m})
  }

  lemma EmptyOrInhabited<T>(t: seq<T>)
    ensures t == [] || exists r :: r in t
  {
    if t != [] { assert t[0] in t; }
  }

  lemma TailElements(s: seq<Row>)
    requires s != [] && Ascending(s)
    ensures Ascending(s[1..])
    ensures forall r :: r in s[1..] <==> r in s && r != s[0]
  {
    BeforeIsStrictOrder();
    forall r | r in s[1..] ensures r != s[0] {
      var i :| 0 <= i < |s[1..]| && s[1..][i] == r;
      assert Before(s[0], s[i + 1]);
    }
    assert s == [s[0]] + s[1..];
  }

  /** ORDER BY leaves the engine no choice: two ascending arrangements of the
      same rows are equal. */
  lemma {:induction false} AscendingIsUnique(s: seq<Row>, t: seq<Row>)
    requires Ascending(s) && Ascending(t)
    requires forall r :: r in s <==> r in t
    ensures s == t
  {
    if s == [] {
      EmptyOrInhabited(t);
    } else {
      assert s[0] in t && t != [] && t[0] in s;
      var i :| 0 <= i < |t| && t[i] == s[0];
      var j :| 0 <= j < |s| && s[j] == t[0];
      BeforeIsStrictOrder();
      assert s[0] == t[0];
      TailElements(s);
      TailElements(t);
      AscendingIsUnique(s[1..], t[1..]);
      assert s == [s[0]] + s[1..] && t == [t[0]] + t[1..];
    }
  }

  function FirstN<T>(s: seq<T>, n: nat): (r: seq<T>) {
    if |s| <= n then s else s[..n]
  }
}
