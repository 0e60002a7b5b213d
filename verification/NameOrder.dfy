/** The order in which std::map<std::string, T> is iterated. */
module NameOrder {

  /** std::less<std::string> */
  predicate Less(a: string, b: string) {
    b != [] && (a == [] || a[0] < b[0] || (a[0] == b[0] && Less(a[1..], b[1..])))
  }

  /** A proper prefix comes first, else the first difference decides. */
  lemma {:induction false} LessMeaning(a: string, b: string)
    ensures Less(a, b) <==>
            || (|a| < |b| && a == b[..|a|])
            || (exists k :: 0 <= k < |a| && k < |b| && a[..k] == b[..k] && a[k] < b[k])
  {
    if a != [] && b != [] {
      var c, d := a[1..], b[1..];
      LessMeaning(c, d);
      assert a == [a[0]] + c && b == [b[0]] + d;
      if a[0] == b[0] {
        if k :| 0 <= k < |c| && k < |d| && c[..k] == d[..k] && c[k] < d[k] {
          assert a[..k + 1] == [a[0]] + c[..k] && b[..k + 1] == [b[0]] + d[..k] && a[k + 1] < b[k + 1];
        }
        if k :| 0 <= k < |a| && k < |b| && a[..k] == b[..k] && a[k] < b[k] {
          assert k > 0;
          assert c[..k - 1] == a[..k][1..] && d[..k - 1] == b[..k][1..] && c[k - 1] < d[k - 1];
        }
      } else if a[0] < b[0] {
        assert a[..0] == b[..0];
      } else {
        assert forall k | 0 < k <= |a| && k <= |b| :: a[..k][0] != b[..k][0];
      }
    }
  }

  lemma {:induction false} Irreflexive(a: string)
    ensures !Less(a, a)
  {
    if a != [] { Irreflexive(a[1..]); }
  }

  lemma {:induction false} Transitive(a: string, b: string, c: string)
    requires Less(a, b) && Less(b, c)
    ensures Less(a, c)
  {
    if a != [] && a[0] == b[0] == c[0] { Transitive(a[1..], b[1..], c[1..]); }
  }

  lemma {:induction false} Total(a: string, b: string)
    ensures Less(a, b) || a == b || Less(b, a)
  {
    if a != [] && b != [] && a[0] == b[0] {
      Total(a[1..], b[1..]);
      assert a == [a[0]] + a[1..] && b == [b[0]] + b[1..];
    }
  }

  predicate IsLeast(n: string, s: set<string>) {
    n in s && forall k | k in s :: k == n || Less(n, k)
  }

  lemma {:induction false} LeastExists(s: set<string>) returns (n: string)
    requires s != {}
    ensures IsLeast(n, s)
  {
    hide Less;
    var x :| x in s;
    if s == {x} {
      n := x;
    } else {
      var rest := s - {x};
      assert s == rest + {x};
      var m := LeastExists(rest);
      Total(x, m);
      n := if Less(x, m) then x else m;
      if Less(x, m) {
        forall k | k in s ensures k == x || Less(x, k) {
          if k != x && k != m { Transitive(x, m, k); }
        }
      }
    }
  }

  /** A set of names that is not empty has one least name. */
  lemma LeastUnique(s: set<string>)
    requires s != {}
    ensures exists n :: n in s && IsLeast(n, s)
    ensures forall a, b | IsLeast(a, s) && IsLeast(b, s) :: a == b
  {
    hide Less;
    var n := LeastExists(s);
    forall a, b | IsLeast(a, s) && IsLeast(b, s) ensures a == b {
      if a != b {
        Transitive(a, b, a);
        Irreflexive(a);
      }
    }
  }

  /** begin() */
  function Least(s: set<string>): (n: string)
    requires s != {}
    ensures IsLeast(n, s)
  {
    LeastUnique(s);
    var n :| n in s && IsLeast(n, s);
    n
  }

  /** The keys from begin() to end(). */
  function Sorted(s: set<string>): (names: seq<string>)
    ensures |names| == |s| && forall n :: n in names <==> n in s
  {
    if s == {} then []
    else
      var n := Least(s);
      assert |s - {n}| == |s| - 1;
      [n] + Sorted(s - {n})
  }

  ghost predicate Ascending(names: seq<string>) {
    forall i, j | 0 <= i < j < |names| :: Less(names[i], names[j])
  }

  lemma {:induction false} SortedAscends(s: set<string>)
    ensures Ascending(Sorted(s))
  {
    hide Less;
    if s != {} {
      var n := Least(s);
      var rest := Sorted(s - {n});
      SortedAscends(s - {n});
      forall i, j | 0 <= i < j < |Sorted(s)| ensures Less(Sorted(s)[i], Sorted(s)[j]) {
        if i == 0 { assert rest[j - 1] in s && rest[j - 1] != n; }
      }
    }
  }

  /** Any strictly ascending list of the same names is this one. */
  lemma {:induction false} SortedUnique(s: set<string>, names: seq<string>)
    requires Ascending(names) && forall n :: n in names <==> n in s
    ensures names == Sorted(s)
  {
    hide Less;
    if names == [] {
      assert s == {};
    } else {
      var n := names[0];
      assert n in s;
      forall k | k in s ensures k == n || Less(n, k) {
        assert k in names;
      }
      LeastUnique(s);
      assert IsLeast(n, s) && IsLeast(Least(s), s);
      forall k ensures k in names[1..] <==> k in s - {n} {
        Irreflexive(n);
        if k in s - {n} { assert k in names; }
      }
      SortedUnique(s - {n}, names[1..]);
    }
  }
}
