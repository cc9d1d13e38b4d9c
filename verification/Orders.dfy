/** Sorted enumerations: what an ORDER BY over a unique column returns. */
module Orders {
  ghost predicate StrictTotal<T(!new)>(less: (T, T) -> bool) {
    && (forall x :: !less(x, x))
    && (forall x, y, z :: less(x, y) && less(y, z) ==> less(x, z))
    && (forall x, y :: x == y || less(x, y) || less(y, x))
  }

  ghost predicate Ascending<T>(s: seq<T>, less: (T, T) -> bool) {
    forall i, j | 0 <= i < j < |s| :: less(s[i], s[j])
  }

  ghost predicate Enumerates<T(!new)>(s: seq<T>, xs: set<T>) {
    forall x :: x in s <==> x in xs
  }

  /** There is only one ascending list of a set's elements. */
  lemma {:induction false} AscendingUnique<T(!new)>(s: seq<T>, t: seq<T>, less: (T, T) -> bool)
    requires StrictTotal(less) && Ascending(s, less) && Ascending(t, less)
    requires forall x :: x in s <==> x in t
    ensures s == t
    decreases |s|
  {
    if s == [] {
      assert forall i | 0 <= i < |t| :: t[i] in t;
    } else {
      assert s[0] in s && s[0] in t;
      assert t[0] in t && t[0] in s;
      assert s[0] == t[0];
      TailMembers(s, less);
      TailMembers(t, less);
      AscendingUnique(s[1..], t[1..], less);
    }
  }

  lemma TailMembers<T(!new)>(s: seq<T>, less: (T, T) -> bool)
    requires StrictTotal(less) && Ascending(s, less) && s != []
    ensures Ascending(s[1..], less) && forall x :: x in s[1..] <==> x in s && x != s[0]
  {
    assert s == [s[0]] + s[1..];
  }

  /** The insertion that keeps a list ascending. */
  function Inserted<T(!new)>(s: seq<T>, x: T, less: (T, T) -> bool): (r: seq<T>) {
    if s != [] && less(s[0], x) then [s[0]] + Inserted(s[1..], x, less) else [x] + s
  }

  lemma {:induction false} InsertedAscends<T(!new)>(s: seq<T>, x: T, less: (T, T) -> bool)
    requires StrictTotal(less) && Ascending(s, less) && x !in s
    ensures Ascending(Inserted(s, x, less), less) && forall y :: y in Inserted(s, x, less) <==> y in s || y == x
    decreases |s|
  {
    if s != [] {
      TailMembers(s, less);
      assert s[0] in s;
      if less(s[0], x) {
        InsertedAscends(s[1..], x, less);
        assert forall y | y in Inserted(s[1..], x, less) :: less(s[0], y);
      } else {
        assert less(x, s[0]) && forall y | y in s :: less(x, y);
      }
      assert s == [s[0]] + s[1..];
    }
  }

  /** The ascending list of a set's elements. */
  ghost function Listed<T(!new)>(xs: set<T>, less: (T, T) -> bool): (r: seq<T>)
    requires StrictTotal(less)
    ensures Ascending(r, less) && Enumerates(r, xs)
  {
    if xs == {} then [] else
    var x :| x in xs;
    InsertedAscends(Listed(xs - {x}, less), x, less);
    Inserted(Listed(xs - {x}, less), x, less)
  }

  /** A sorted query: the rows of a set in ascending order. */
  method SortedList<T(==, !new)>(xs: set<T>, less: (T, T) -> bool) returns (r: seq<T>)
    requires StrictTotal(less)
    ensures r == Listed(xs, less)
  {
    r := [];
    var todo := xs;
    while todo != {}
      invariant todo <= xs && Ascending(r, less)
      invariant forall y :: y in r <==> y in xs && y !in todo
      decreases todo
    {
      var x :| x in todo;
      InsertedAscends(r, x, less);
      r := Inserted(r, x, less);
      todo := todo - {x};
    }
    AscendingUnique(r, Listed(xs, less), less);
  }

  predicate IntLess(x: int, y: int) {
    x < y
  }

  lemma IntLessTotal()
    ensures StrictTotal(IntLess)
  {
  }

  /** Lexicographic order of strings. */
  predicate StringLess(a: string, b: string) {
    if b == [] then false
    else if a == [] then true
    else a[0] < b[0] || (a[0] == b[0] && StringLess(a[1..], b[1..]))
  }

  lemma {:induction false} StringLessIrreflexive(a: string)
    ensures !StringLess(a, a)
  {
    if a != [] {
      StringLessIrreflexive(a[1..]);
    }
  }

  lemma {:induction false} StringLessTransitive(a: string, b: string, c: string)
    requires StringLess(a, b) && StringLess(b, c)
    ensures StringLess(a, c)
  {
    if a != [] && a[0] == b[0] == c[0] {
      StringLessTransitive(a[1..], b[1..], c[1..]);
    }
  }

  lemma {:induction false} StringLessConnected(a: string, b: string)
    ensures a == b || StringLess(a, b) || StringLess(b, a)
  {
    if a != [] && b != [] && a[0] == b[0] {
      StringLessConnected(a[1..], b[1..]);
      if a[1..] == b[1..] {
        assert a == [a[0]] + a[1..] && b == [b[0]] + b[1..];
      }
    }
  }

  lemma StringLessTotal()
    ensures StrictTotal(StringLess)
  {
    forall a ensures !StringLess(a, a) {
      StringLessIrreflexive(a);
    }
    forall a, b, c | StringLess(a, b) && StringLess(b, c) ensures StringLess(a, c) {
      StringLessTransitive(a, b, c);
    }
    forall a, b ensures a == b || StringLess(a, b) || StringLess(b, a) {
      StringLessConnected(a, b);
    }
  }

  /** `a` is a proper prefix of `b`, or has the smaller character where they first differ. */
  ghost predicate Before(a: string, b: string) {
    exists k: nat :: k <= |a| && k < |b| && a[..k] == b[..k] && (k == |a| || a[k] < b[k])
  }

  /** StringLess is the order of a dictionary. */
  lemma {:induction false} StringLessIsBefore(a: string, b: string)
    ensures StringLess(a, b) <==> Before(a, b)
  {
    if a == [] || b == [] || a[0] != b[0] {
      if StringLess(a, b) {
        assert a[..0] == b[..0];
      }
    } else {
      StringLessIsBefore(a[1..], b[1..]);
      if Before(a[1..], b[1..]) {
        var k: nat :| k <= |a[1..]| && k < |b[1..]| && a[1..][..k] == b[1..][..k]
          && (k == |a[1..]| || a[1..][k] < b[1..][k]);
        assert a[..k + 1] == [a[0]] + a[1..][..k] && b[..k + 1] == [b[0]] + b[1..][..k];
      }
      if Before(a, b) {
        var k: nat :| k <= |a| && k < |b| && a[..k] == b[..k] && (k == |a| || a[k] < b[k]);
        assert k > 0 && a[1..][..k - 1] == a[..k][1..] && b[1..][..k - 1] == b[..k][1..];
      }
    }
  }

  /** A proper prefix comes first. */
  lemma PrefixIsBefore(p: string, s: string)
    requires s != []
    ensures StringLess(p, p + s)
  {
    assert p[..|p|] == (p + s)[..|p|];
    StringLessIsBefore(p, p + s);
  }

  /** Else the smaller character at the first difference decides. */
  lemma DifferenceDecides(p: string, x: char, s: string, y: char, t: string)
    requires x < y
    ensures StringLess(p + [x] + s, p + [y] + t) && !StringLess(p + [y] + t, p + [x] + s)
  {
    var a, b := p + [x] + s, p + [y] + t;
    hide StringLess;
    assert a[..|p|] == p == b[..|p|] && a[|p|] == x && b[|p|] == y;
    StringLessIsBefore(a, b);
    StringLessIrreflexive(a);
    if StringLess(b, a) {
      StringLessTransitive(a, b, a);
    }
  }

  lemma SomeMember<T>(s: set<T>) returns (x: T)
    requires s != {}
    ensures x in s
  {
    x :| x in s;
  }

  /** There are n numbers below n. */
  lemma {:induction false} ContiguousCount(ids: set<int>, n: nat)
    requires forall id :: id in ids <==> 0 <= id < n
    ensures |ids| == n
  {
    if n == 0 && ids != {} {
      var id := SomeMember(ids);
      assert false;
    }
    if n > 0 {
      ContiguousCount(ids - {n - 1}, n - 1);
    }
  }

  /** An ascending enumeration has as many entries as the set has elements. */
  lemma {:induction false} EnumerationLength(s: seq<int>, xs: set<int>)
    requires Ascending(s, IntLess) && Enumerates(s, xs)
    ensures |s| == |xs|
  {
    if s == [] {
      assert forall x :: x !in xs;
      assert xs == {};
    } else {
      IntLessTotal();
      TailMembers(s, IntLess);
      assert s[0] in s;
      EnumerationLength(s[1..], xs - {s[0]});
    }
  }
}
