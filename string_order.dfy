/**
 * Python's ordering of `str` values (lexicographic by code point, a proper
 * prefix first) and `sorted()` of a set of strings.
 */
module StringOrder {

  predicate Less(a: string, b: string)
    decreases |a|
  {
    if |a| == 0 then |b| > 0
    else if |b| == 0 then false
    else if a[0] != b[0] then a[0] < b[0]
    else Less(a[1..], b[1..])
  }

  lemma {:induction false} LessIrreflexive(a: string)
    ensures !Less(a, a)
    decreases |a|
  {
    if |a| > 0 {
      LessIrreflexive(a[1..]);
    }
  }

  lemma {:induction false} LessTransitive(a: string, b: string, c: string)
    requires Less(a, b) && Less(b, c)
    ensures Less(a, c)
    decreases |a|
  {
    if |a| > 0 && a[0] == b[0] && b[0] == c[0] {
      LessTransitive(a[1..], b[1..], c[1..]);
    }
  }

  lemma {:induction false} LessTotal(a: string, b: string)
    ensures a == b || Less(a, b) || Less(b, a)
    decreases |a|
  {
    if |a| > 0 && |b| > 0 && a[0] == b[0] {
      LessTotal(a[1..], b[1..]);
      if a[1..] == b[1..] {
        assert a == [a[0]] + a[1..] && b == [b[0]] + b[1..];
      }
    }
  }

  lemma LessAsymmetric(a: string, b: string)
    requires Less(a, b)
    ensures !Less(b, a)
  {
    if Less(b, a) {
      LessTransitive(a, b, a);
      LessIrreflexive(a);
    }
  }

  predicate StrictlyIncreasing(s: seq<string>)
  {
    forall i, j :: 0 <= i < j < |s| ==> Less(s[i], s[j])
  }

  predicate IsMinimum(m: string, s: set<string>)
  {
    m in s && forall y :: y in s && y != m ==> Less(m, y)
  }

  lemma {:induction false} MinimumExists(s: set<string>)
    requires s != {}
    ensures exists m :: IsMinimum(m, s)
    decreases |s|
  {
    var x :| x in s;
    if s != {x} {
      var rest := s - {x};
      MinimumExists(rest);
      var m :| m in rest && IsMinimum(m, rest);
      LessTotal(x, m);
      if Less(x, m) {
        forall y | y in s && y != x
          ensures Less(x, y)
        {
          if y != m {
            LessTransitive(x, m, y);
          }
        }
        assert IsMinimum(x, s);
      } else {
        assert IsMinimum(m, s);
      }
    } else {
      assert IsMinimum(x, s);
    }
  }

  lemma MinimumUnique(s: set<string>)
    ensures forall a, b :: IsMinimum(a, s) && IsMinimum(b, s) ==> a == b
  {
    forall a, b | IsMinimum(a, s) && IsMinimum(b, s)
      ensures a == b
    {
      if a != b {
        LessAsymmetric(a, b);
      }
    }
  }

  /** `sorted(s)`: every element once, in strictly increasing order. */
  function Sorted(s: set<string>): (r: seq<string>)
    ensures StrictlyIncreasing(r)
    ensures forall x :: x in r <==> x in s
    ensures |r| == |s|
    decreases |s|
  {
    if s == {} then []
    else
      MinimumExists(s);
      MinimumUnique(s);
      var m :| m in s && IsMinimum(m, s);
      var rest := Sorted(s - {m});
      assert forall j :: 0 <= j < |rest| ==> Less(m, rest[j]) by {
        forall j | 0 <= j < |rest| ensures Less(m, rest[j]) {
          assert rest[j] in rest;
        }
      }
      [m] + rest
  }

  lemma HeadNotInTail(r: seq<string>)
    requires StrictlyIncreasing(r) && r != []
    ensures r[0] !in r[1..]
  {
    if r[0] in r[1..] {
      var k :| 0 <= k < |r[1..]| && r[1..][k] == r[0];
      assert Less(r[0], r[k + 1]);
      LessIrreflexive(r[0]);
    }
  }

  lemma HeadsAgree(r: seq<string>, q: seq<string>)
    requires StrictlyIncreasing(r) && StrictlyIncreasing(q) && r != [] && q != []
    requires forall x :: x in r <==> x in q
    ensures r[0] == q[0]
  {
    if r[0] != q[0] {
      assert q[0] in r && r[0] in q;
      var i :| 0 <= i < |r| && r[i] == q[0];
      var j :| 0 <= j < |q| && q[j] == r[0];
      assert Less(r[0], q[0]) && Less(q[0], r[0]);
      LessAsymmetric(r[0], q[0]);
    }
  }

  lemma BothEmptyOrNeither(r: seq<string>, q: seq<string>)
    requires forall x :: x in r <==> x in q
    ensures r == [] <==> q == []
  {
    if r != [] {
      assert r[0] in q;
    }
    if q != [] {
      assert q[0] in r;
    }
  }

  /** Two strictly increasing sequences with the same elements are equal. */
  lemma {:induction false} IncreasingDetermined(r: seq<string>, q: seq<string>)
    requires StrictlyIncreasing(r) && StrictlyIncreasing(q)
    requires forall x :: x in r <==> x in q
    ensures r == q
    decreases |r|
  {
    BothEmptyOrNeither(r, q);
    if r != [] {
      HeadsAgree(r, q);
      HeadNotInTail(r);
      HeadNotInTail(q);
      assert r == [r[0]] + r[1..] && q == [q[0]] + q[1..];
      forall x ensures x in r[1..] <==> x in q[1..] {
        assert x in r <==> x in q;
      }
      IncreasingDetermined(r[1..], q[1..]);
    }
  }

  /** `sorted` is determined by the set: no other strictly increasing listing exists. */
  lemma SortedUnique(s: set<string>, r: seq<string>)
    requires StrictlyIncreasing(r)
    requires forall x :: x in r <==> x in s
    ensures r == Sorted(s)
  {
    IncreasingDetermined(r, Sorted(s));
  }
}
