/**
 The order `Array.prototype.sort()` puts strings in when it is given no comparator:
 character by character, a proper prefix first. The keys of the pivot report are
 sorted in this order.
 */
module Lexical {

  /** `a` sorts strictly before `b`. */
  predicate Less(a: string, b: string)
    decreases |a|
  {
    if a == [] then b != []
    else if b == [] then false
    else if a[0] != b[0] then a[0] < b[0]
    else Less(a[1..], b[1..])
  }

  lemma {:induction false} LessIrreflexive(a: string)
    ensures !Less(a, a)
    decreases |a|
  {
    if a != [] {
      LessIrreflexive(a[1..]);
    }
  }

  lemma {:induction false} LessTransitive(a: string, b: string, c: string)
    requires Less(a, b) && Less(b, c)
    ensures Less(a, c)
    decreases |a|
  {
    if a != [] && a[0] == b[0] && b[0] == c[0] {
      LessTransitive(a[1..], b[1..], c[1..]);
    }
  }

  lemma {:induction false} LessTotal(a: string, b: string)
    ensures a == b || Less(a, b) || Less(b, a)
    decreases |a|
  {
    if a != [] && b != [] && a[0] == b[0] {
      LessTotal(a[1..], b[1..]);
      assert a == [a[0]] + a[1..];
      assert b == [b[0]] + b[1..];
    }
  }

  lemma LessAsymmetric(a: string, b: string)
    requires Less(a, b)
    ensures !Less(b, a)
  {
    if Less(b, a) {
      LessTransitive(a, b, a);
      LessIrreflexive(a);
    }
  }

  /** Every element sorts strictly before every later one (so no element repeats). */
  predicate StrictlySorted(r: seq<string>) {
    forall i, j :: 0 <= i < j < |r| ==> Less(r[i], r[j])
  }

  /** `m` is the element of `s` that sorts first. */
  predicate IsLeast(m: string, s: set<string>) {
    m in s && forall x :: x in s && x != m ==> Less(m, x)
  }

  lemma {:induction false} LeastExists(s: set<string>)
    requires s != {}
    ensures exists m :: IsLeast(m, s)
    decreases |s|
  {
    var x :| x in s;
    if s != {x} {
      var rest := s - {x};
      LeastExists(rest);
      var m :| IsLeast(m, rest);
      LessTotal(x, m);
      if Less(x, m) {
        forall y | y in s && y != x ensures Less(x, y) {
          if y != m { LessTransitive(x, m, y); }
        }
        assert IsLeast(x, s);
      } else {
        assert IsLeast(m, s);
      }
    } else {
      assert IsLeast(x, s);
    }
  }

  lemma LeastUnique(m1: string, m2: string, s: set<string>)
    requires IsLeast(m1, s) && IsLeast(m2, s)
    ensures m1 == m2
  {
    if m1 != m2 {
      LessAsymmetric(m1, m2);
    }
  }

  /** The element of a non-empty set that sorts first. */
  ghost function Least(s: set<string>): (m: string)
    requires s != {}
    ensures IsLeast(m, s)
  {
    LeastExists(s);
    var m :| IsLeast(m, s);
    m
  }

  /** The elements of `s` in ascending order: `Array.from(s).sort()`. */
  ghost function SortedSeq(s: set<string>): seq<string>
    decreases |s|
  {
    if s == {} then []
    else
      var m := Least(s);
      [m] + SortedSeq(s - {m})
  }

  /** The sorted keys are the elements of the set, each exactly once, in ascending order. */
  lemma {:induction false} SortedSeqFacts(s: set<string>)
    ensures |SortedSeq(s)| == |s|
    ensures forall x :: x in SortedSeq(s) <==> x in s
    ensures StrictlySorted(SortedSeq(s))
    decreases |s|
  {
    if s != {} {
      var m := Least(s);
      SortedSeqFacts(s - {m});
      var r := SortedSeq(s);
      assert r == [m] + SortedSeq(s - {m});
      forall i, j | 0 <= i < j < |r| ensures Less(r[i], r[j]) {
        if i == 0 {
          assert r[j] in s - {m};
        } else {
          assert r[i] == SortedSeq(s - {m})[i - 1] && r[j] == SortedSeq(s - {m})[j - 1];
        }
      }
    }
  }

  lemma SortedSeqStep(s: set<string>, m: string)
    requires IsLeast(m, s)
    ensures SortedSeq(s) == [m] + SortedSeq(s - {m})
  {
    LeastUnique(m, Least(s), s);
  }

  /** A strictly sorted sequence is determined by its elements. */
  lemma {:induction false} SortedSeqUnique(r: seq<string>, s: set<string>)
    requires StrictlySorted(r)
    requires forall x :: x in r <==> x in s
    ensures r == SortedSeq(s)
    decreases |r|
  {
    if r == [] {
      assert s == {};
    } else {
      var m := r[0];
      forall x | x in s && x != m ensures Less(m, x) {
        var k :| 0 <= k < |r| && r[k] == x;
      }
      SortedSeqStep(s, m);
      var tail := r[1..];
      forall x ensures x in tail <==> x in s - {m} {
        if x in tail {
          var k :| 0 <= k < |tail| && tail[k] == x;
          LessIrreflexive(m);
          assert Less(r[0], r[k + 1]);
        }
        if x in s - {m} {
          var k :| 0 <= k < |r| && r[k] == x;
          assert k != 0;
          assert tail[k - 1] == x;
        }
      }
      SortedSeqUnique(tail, s - {m});
      assert r == [m] + tail;
    }
  }

  /** The element of a non-empty set that sorts first, found by one pass over the set. */
  method LeastOf(s: set<string>) returns (m: string)
    requires s != {}
    ensures IsLeast(m, s)
  {
    var rest := s;
    m :| m in rest;
    rest := rest - {m};
    while rest != {}
      invariant rest <= s && m in s && m !in rest
      invariant forall x :: x in s && x !in rest && x != m ==> Less(m, x)
      decreases |rest|
    {
      var x :| x in rest;
      LessTotal(x, m);
      if Less(x, m) {
        forall y | y in s && y !in rest && y != m ensures Less(x, y) {
          LessTransitive(x, m, y);
        }
        m := x;
      }
      rest := rest - {x};
    }
  }

  /** `Array.from(s).sort()`: the elements of `s`, each once, in ascending order. */
  method SortKeys(s: set<string>) returns (sorted: seq<string>)
    ensures sorted == SortedSeq(s)
  {
    sorted := [];
    var rest := s;
    while rest != {}
      invariant sorted + SortedSeq(rest) == SortedSeq(s)
      decreases |rest|
    {
      var m := LeastOf(rest);
      SortedSeqStep(rest, m);
      assert (sorted + [m]) + SortedSeq(rest - {m}) == sorted + SortedSeq(rest);
      sorted := sorted + [m];
      rest := rest - {m};
    }
  }
}
