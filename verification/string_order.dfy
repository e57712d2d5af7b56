/**
 Python's ordering of strings (`<` on `str`) and the `sorted()` listing of a
 set of names that `Printer.build_config` walks.
 */
module StringOrder {

  /** Lexicographic order on character codes; a proper prefix comes first. */
  predicate Less(a: string, b: string)
    decreases |a|
  {
    if |a| == 0 then |b| > 0
    else if |b| == 0 then false
    else if a[0] < b[0] then true
    else if a[0] == b[0] then Less(a[1..], b[1..])
    else false
  }

  lemma {:induction false} LessIrreflexive(a: string)
    ensures !Less(a, a)
    decreases |a|
  {
    if |a| > 0 {
      LessIrreflexive(a[1..]);
    }
  }

  lemma {:induction false} LessTransitive(a: string, b: string, c: string)
    requires Less(a, b) && Less(b, c)
    ensures Less(a, c)
    decreases |a|
  {
    if |a| > 0 && a[0] == b[0] && b[0] == c[0] {
      LessTransitive(a[1..], b[1..], c[1..]);
    }
  }

  lemma {:induction false} LessTotal(a: string, b: string)
    requires a != b
    ensures Less(a, b) || Less(b, a)
    decreases |a|
  {
    if |a| > 0 && |b| > 0 && a[0] == b[0] {
      assert a == [a[0]] + a[1..] && b == [b[0]] + b[1..];
      LessTotal(a[1..], b[1..]);
    }
  }

  lemma LessAsymmetric(a: string, b: string)
    requires Less(a, b)
    ensures !Less(b, a)
  {
    if Less(b, a) {
      LessTransitive(a, b, a);
      LessIrreflexive(a);
    }
  }

  /** `m` is the smallest member of `s`. */
  predicate IsLeast(m: string, s: set<string>)
  {
    m in s && forall x :: x in s && x != m ==> Less(m, x)
  }

  lemma {:induction false} LeastExists(s: set<string>)
    requires s != {}
    ensures exists m :: IsLeast(m, s)
    decreases |s|
  {
    var x :| x in s;
    var rest := s - {x};
    if rest == {} {
      assert s == {x};
      assert IsLeast(x, s);
    } else {
      LeastExists(rest);
      var m :| IsLeast(m, rest);
      if Less(x, m) {
        forall y | y in s && y != x
          ensures Less(x, y)
        {
          if y != m {
            LessTransitive(x, m, y);
          }
        }
        assert IsLeast(x, s);
      } else {
        LessTotal(x, m);
        assert IsLeast(m, s);
      }
    }
  }

  lemma LeastUnique(s: set<string>)
    ensures forall m, n :: IsLeast(m, s) && IsLeast(n, s) ==> m == n
  {
    forall m, n | IsLeast(m, s) && IsLeast(n, s)
      ensures m == n
    {
      if m != n {
        LessAsymmetric(m, n);
      }
    }
  }

  /** Every element precedes every later one: sorted and free of repeats. */
  predicate StrictlyAscending(r: seq<string>)
  {
    forall i, j :: 0 <= i < j < |r| ==> Less(r[i], r[j])
  }

  /** Python's `sorted(names)` for a set of distinct names. */
  function Sorted(names: set<string>): (r: seq<string>)
    ensures StrictlyAscending(r)
    ensures forall x :: x in r <==> x in names
    ensures |r| == |names|
    decreases |names|
  {
    if names == {} then []
    else
      LeastExists(names);
      LeastUnique(names);
      var m :| IsLeast(m, names);
      var rest := Sorted(names - {m});
      assert forall k :: 0 <= k < |rest| ==> rest[k] in names - {m};
      ConsAscending(m, rest);
      [m] + rest
  }

  /** A least element put in front of an ascending listing keeps it ascending. */
  lemma ConsAscending(m: string, rest: seq<string>)
    requires StrictlyAscending(rest)
    requires forall k :: 0 <= k < |rest| ==> Less(m, rest[k])
    ensures StrictlyAscending([m] + rest)
    ensures forall x :: x in [m] + rest <==> x == m || x in rest
  {
    var r := [m] + rest;
    forall i, j | 0 <= i < j < |r|
      ensures Less(r[i], r[j])
    {
      assert r[j] == rest[j - 1];
      if i > 0 {
        assert r[i] == rest[i - 1];
      }
    }
  }

  /** Two strictly ascending listings of the same names are the same listing. */
  lemma {:induction false} AscendingListingUnique(r: seq<string>, q: seq<string>)
    requires StrictlyAscending(r) && StrictlyAscending(q)
    requires forall x :: x in r <==> x in q
    ensures r == q
    decreases |r|
  {
    assert |r| > 0 ==> r[0] in q;
    assert |q| > 0 ==> q[0] in r;
    if |r| > 0 && |q| > 0 {
      assert r[0] in r && q[0] in q;
      if r[0] != q[0] {
        var j :| 0 <= j < |r| && r[j] == q[0];
        var k :| 0 <= k < |q| && q[k] == r[0];
        assert Less(r[0], q[0]) by { assert j != 0; }
        assert Less(q[0], r[0]) by { assert k != 0; }
        LessAsymmetric(r[0], q[0]);
      }
      forall x
        ensures x in r[1..] <==> x in q[1..]
      {
        if x in r[1..] {
          var i :| 0 <= i < |r| - 1 && r[1..][i] == x;
          assert r[i + 1] == x && Less(r[0], x);
          LessIrreflexive(x);
          assert x in q;
          var k :| 0 <= k < |q| && q[k] == x;
          assert k != 0;
          assert q[1..][k - 1] == x;
        }
        if x in q[1..] {
          var i :| 0 <= i < |q| - 1 && q[1..][i] == x;
          assert q[i + 1] == x && Less(q[0], x);
          LessIrreflexive(x);
          assert x in r;
          var k :| 0 <= k < |r| && r[k] == x;
          assert k != 0;
          assert r[1..][k - 1] == x;
        }
      }
      AscendingListingUnique(r[1..], q[1..]);
      assert r == [r[0]] + r[1..] && q == [q[0]] + q[1..];
    }
  }

  /** A strictly ascending listing names each of its members exactly once. */
  lemma {:induction false} AscendingListsOnce(r: seq<string>, x: string)
    requires StrictlyAscending(r)
    ensures multiset(r)[x] == (if x in r then 1 else 0)
    decreases |r|
  {
    if |r| > 0 {
      assert r == [r[0]] + r[1..];
      AscendingListsOnce(r[1..], x);
      if x == r[0] {
        LessIrreflexive(x);
        assert x !in r[1..];
      }
    }
  }

  /** A strictly ascending listing has as many distinct members as entries. */
  lemma {:induction false} AscendingSetSize(r: seq<string>)
    requires StrictlyAscending(r)
    ensures |set x | x in r| == |r|
    decreases |r|
  {
    if |r| > 0 {
      AscendingSetSize(r[1..]);
      LessIrreflexive(r[0]);
      assert r[0] !in r[1..];
      assert (set x | x in r) == {r[0]} + (set x | x in r[1..]);
    }
  }

  /**
   A strictly ascending listing of as many members of `names` as `names`
   has is the sorted listing of `names`: nothing is skipped.
   */
  lemma AscendingCoverIsSorted(r: seq<string>, names: set<string>)
    requires StrictlyAscending(r)
    requires |r| == |names|
    requires forall i :: 0 <= i < |r| ==> r[i] in names
    ensures r == Sorted(names)
  {
    var listed := set x | x in r;
    AscendingSetSize(r);
    assert listed <= names;
    assert |names - listed| == |names| - |listed|;
    assert names - listed == {};
    AscendingListingUnique(r, Sorted(names));
  }
}
