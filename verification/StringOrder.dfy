/** Go's order on strings, sorting by it, and minima by (rank, name).
    The tracker sorts pod keys and model names with it before every choice. */
module StringOrder {

  /** Go's `a < b`. */
  predicate Less(a: string, b: string)
  {
    |b| > 0 && (|a| == 0 || a[0] < b[0] || (a[0] == b[0] && Less(a[1..], b[1..])))
  }

  predicate Leq(a: string, b: string)
  {
    a == b || Less(a, b)
  }

  /** `a` is a proper beginning of `b`, or smaller at the first place where they differ. */
  lemma {:induction false} LessExactly(a: string, b: string)
    ensures Less(a, b) <==> exists i: nat :: SmallerFrom(a, b, i)
  {
    forall i: nat | 0 < i <= |a| && i <= |b| && a[..i] == b[..i] ensures a[0] == b[0] {
      assert a[..i][0] == a[0] && b[..i][0] == b[0];
    }
    if |a| > 0 && |b| > 0 && a[0] == b[0] {
      LessExactly(a[1..], b[1..]);
      forall i: nat ensures SmallerFrom(a[1..], b[1..], i) <==> SmallerFrom(a, b, i + 1) {
        assert i < |b| - 1 && i <= |a| - 1 ==> a[..i + 1] == [a[0]] + a[1..][..i] && b[..i + 1] == [b[0]] + b[1..][..i];
        if SmallerFrom(a, b, i + 1) { assert a[1..][..i] == a[..i + 1][1..] && b[1..][..i] == b[..i + 1][1..]; }
      }
      if i: nat :| SmallerFrom(a, b, i) {
        assert i != 0;
        assert SmallerFrom(a[1..], b[1..], i - 1);
      }
    } else if Less(a, b) {
      assert SmallerFrom(a, b, 0);
    }
  }

  ghost predicate SmallerFrom(a: string, b: string, i: nat)
  {
    i <= |a| && i < |b| && a[..i] == b[..i] && (i == |a| || a[i] < b[i])
  }

  lemma {:induction false} LessTransitive(a: string, b: string, c: string)
    requires Less(a, b) && Less(b, c)
    ensures Less(a, c)
  {
    if |a| > 0 && a[0] == b[0] == c[0] {
      LessTransitive(a[1..], b[1..], c[1..]);
    }
  }

  lemma {:induction false} LessTotal(a: string, b: string)
    ensures a == b || Less(a, b) || Less(b, a)
  {
    if |a| > 0 && |b| > 0 && a[0] == b[0] {
      LessTotal(a[1..], b[1..]);
      assert a == [a[0]] + a[1..] && b == [b[0]] + b[1..];
    }
  }

  lemma {:induction false} LessAsymmetric(a: string, b: string)
    requires Less(a, b)
    ensures !Less(b, a) && a != b
  {
    if |a| > 0 && a[0] == b[0] {
      LessAsymmetric(a[1..], b[1..]);
    }
  }

  lemma LeqTransitive(a: string, b: string, c: string)
    requires Leq(a, b) && Leq(b, c)
    ensures Leq(a, c)
  {
    if a != b && b != c {
      LessTransitive(a, b, c);
    }
  }

  // ----- Sorting (the library calls sort.Strings and sort.Slice) -----

  ghost predicate Sorted(s: seq<string>)
  {
    forall i, j :: 0 <= i < j < |s| ==> Leq(s[i], s[j])
  }

  function InsertSorted(x: string, s: seq<string>): (r: seq<string>)
    requires Sorted(s)
    ensures Sorted(r) && multiset(r) == multiset(s) + multiset{x}
  {
    if s == [] then [x]
    else if Leq(x, s[0]) then
      assert forall j | 0 <= j < |s| :: Leq(x, s[j]) by {
        forall j | 0 <= j < |s| ensures Leq(x, s[j]) { LeqTransitive(x, s[0], s[j]); }
      }
      [x] + s
    else
      var t := InsertSorted(x, s[1..]);
      assert s == [s[0]] + s[1..];
      assert forall j | 0 <= j < |t| :: Leq(s[0], t[j]) by {
        forall j | 0 <= j < |t| ensures Leq(s[0], t[j]) {
          LessTotal(x, s[0]);
          assert t[j] in multiset(t);
          assert t[j] == x || t[j] in s[1..];
        }
      }
      [s[0]] + t
  }

  function Sort(s: seq<string>): (r: seq<string>)
    ensures Sorted(r) && multiset(r) == multiset(s)
  {
    if s == [] then []
    else
      assert s == [s[0]] + s[1..];
      InsertSorted(s[0], Sort(s[1..]))
  }

  // ----- Minima by (rank, name) -----

  predicate Precedes(rank: string -> real, x: string, y: string)
  {
    rank(x) < rank(y) || (rank(x) == rank(y) && Leq(x, y))
  }

  ghost predicate IsMin(x: string, s: set<string>, rank: string -> real)
  {
    x in s && forall y :: y in s ==> Precedes(rank, x, y)
  }

  lemma {:induction false} MinExists(s: set<string>, rank: string -> real)
    requires s != {}
    ensures exists x :: IsMin(x, s, rank)
  {
    var e :| e in s;
    if s == {e} {
      assert IsMin(e, s, rank);
    } else {
      var rest := s - {e};
      assert rest != {} by { assert s == {e} + rest; }
      MinExists(rest, rank);
      var r :| IsMin(r, rest, rank);
      LessTotal(e, r);
      if Precedes(rank, e, r) {
        forall y | y in s ensures Precedes(rank, e, y) {
          if y != e { PrecedesTransitive(rank, e, r, y); }
        }
        assert IsMin(e, s, rank);
      } else {
        assert IsMin(r, s, rank);
      }
    }
  }

  lemma PrecedesTransitive(rank: string -> real, x: string, y: string, z: string)
    requires Precedes(rank, x, y) && Precedes(rank, y, z)
    ensures Precedes(rank, x, z)
  {
    if rank(x) == rank(y) == rank(z) { LeqTransitive(x, y, z); }
  }

  lemma MinUnique(x: string, y: string, s: set<string>, rank: string -> real)
    requires IsMin(x, s, rank) && IsMin(y, s, rank)
    ensures x == y
  {
    if x != y { LessAsymmetric(x, y); }
  }

  /** The first element of `s` by rank, ties broken by name. */
  ghost function Min(s: set<string>, rank: string -> real): (x: string)
    requires s != {}
    ensures IsMin(x, s, rank)
  {
    MinExists(s, rank);
    var x :| IsMin(x, s, rank);
    x
  }
}
