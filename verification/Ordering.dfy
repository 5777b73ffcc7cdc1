/** ORDER BY over a set of distinct keys: integers, and texts in code point order. */
module Ordering {

  lemma EmptyOrInhabited(s: set<int>)
    ensures s == {} || exists a :: a in s
  {
    assert (forall a :: a !in s) ==> s == {};
  }

  lemma {:induction false} Greatest(s: set<int>) returns (m: int)
    requires s != {}
    ensures m in s && forall x :: x in s ==> x <= m
    decreases |s|
  {
    EmptyOrInhabited(s);
    var a :| a in s;
    var rest := s - {a};
    m := a;
    if rest != {} {
      m := Greatest(rest);
      m := if m < a then a else m;
    }
    forall x | x in s
      ensures x <= m
    {
      assert x == a || x in rest;
    }
  }

  function Max(s: set<int>): (m: int)
    requires s != {}
    ensures m in s && forall x :: x in s ==> x <= m
  {
    assert exists m :: m in s && forall x :: x in s ==> x <= m by {
      var m := Greatest(s);
    }
    var m :| m in s && forall x :: x in s ==> x <= m;
    m
  }

  function Falling(s: set<int>): seq<int>
    decreases |s|
  {
    if s == {} then [] else [Max(s)] + Falling(s - {Max(s)})
  }

  lemma {:induction false} FallingSorts(s: set<int>)
    ensures |Falling(s)| == |s|
    ensures forall x :: x in Falling(s) <==> x in s
    ensures forall i, j :: 0 <= i < j < |Falling(s)| ==> Falling(s)[i] > Falling(s)[j]
    decreases |s|
  {
    if s != {} {
      var m, rest := Max(s), s - {Max(s)};
      FallingSorts(rest);
      assert Falling(s) == [m] + Falling(rest);
      forall j | 0 <= j < |Falling(rest)|
        ensures m > Falling(rest)[j]
      {
        assert Falling(rest)[j] in rest;
      }
    }
  }

  /** ORDER BY key DESC */
  function Descending(s: set<int>): (r: seq<int>)
    ensures |r| == |s|
    ensures forall i :: 0 <= i < |r| ==> r[i] in s
    ensures forall x :: x in s ==> x in r
    ensures forall i, j :: 0 <= i < j < |r| ==> r[i] > r[j]
  {
    FallingSorts(s);
    Falling(s)
  }

  function Rising(s: set<int>): seq<int>
    decreases |s|
  {
    if s == {} then [] else Rising(s - {Max(s)}) + [Max(s)]
  }

  lemma {:induction false} RisingSorts(s: set<int>)
    ensures |Rising(s)| == |s|
    ensures forall x :: x in Rising(s) <==> x in s
    ensures forall i, j :: 0 <= i < j < |Rising(s)| ==> Rising(s)[i] < Rising(s)[j]
    decreases |s|
  {
    if s != {} {
      var m, rest := Max(s), s - {Max(s)};
      RisingSorts(rest);
      assert Rising(s) == Rising(rest) + [m];
      forall i | 0 <= i < |Rising(rest)|
        ensures Rising(rest)[i] < m
      {
        assert Rising(rest)[i] in rest;
      }
    }
  }

  /** ORDER BY key ASC */
  function Ascending(s: set<int>): (r: seq<int>)
    ensures |r| == |s|
    ensures forall i :: 0 <= i < |r| ==> r[i] in s
    ensures forall x :: x in s ==> x in r
    ensures forall i, j :: 0 <= i < j < |r| ==> r[i] < r[j]
  {
    RisingSorts(s);
    Rising(s)
  }

  /** The elements of a set in ascending order are one sequence only. */
  lemma {:induction false} AscendingIsUnique(a: seq<int>, s: set<int>)
    requires forall i, j :: 0 <= i < j < |a| ==> a[i] < a[j]
    requires forall x :: x in a <==> x in s
    ensures a == Ascending(s)
    decreases |a|
  {
    if a == [] {
      EmptyOrInhabited(s);
    } else {
      var front, last := a[..|a| - 1], a[|a| - 1];
      assert a == front + [last];
      assert last in s && Max(s) == last;
      AscendingIsUnique(front, s - {last});
    }
  }

  lemma {:induction false} DescendingIsUnique(a: seq<int>, s: set<int>)
    requires forall i, j :: 0 <= i < j < |a| ==> a[i] > a[j]
    requires forall x :: x in a <==> x in s
    ensures a == Descending(s)
    decreases |a|
  {
    if a == [] {
      EmptyOrInhabited(s);
    } else {
      assert a == [a[0]] + a[1..];
      assert a[0] in s && Max(s) == a[0];
      DescendingIsUnique(a[1..], s - {a[0]});
    }
  }

  lemma DescendingStarts(s: set<int>)
    requires s != {}
    ensures Descending(s) == [Max(s)] + Descending(s - {Max(s)})
  {
  }

  /** Code point order, as under the C collation. */
  predicate TextLeq(a: string, b: string) {
    a == "" || (b != "" && (a[0] < b[0] || (a[0] == b[0] && TextLeq(a[1..], b[1..]))))
  }

  lemma {:induction false} TextLeqTotal(a: string, b: string)
    ensures TextLeq(a, b) || TextLeq(b, a)
    ensures TextLeq(a, b) && TextLeq(b, a) ==> a == b
    decreases |a|
  {
    if a != "" && b != "" {
      TextLeqTotal(a[1..], b[1..]);
      assert a == [a[0]] + a[1..] && b == [b[0]] + b[1..];
    }
  }

  lemma {:induction false} TextLeqTransitive(a: string, b: string, c: string)
    requires TextLeq(a, b) && TextLeq(b, c)
    ensures TextLeq(a, c)
    decreases |a|
  {
    if a != "" && a[0] == b[0] && b[0] == c[0] {
      TextLeqTransitive(a[1..], b[1..], c[1..]);
    }
  }

  predicate IsLeast(s: set<string>, m: string) {
    m in s && forall x :: x in s ==> TextLeq(m, x)
  }

  lemma {:induction false} HasLeast(s: set<string>)
    requires s != {}
    ensures exists m :: IsLeast(s, m)
    decreases |s|
  {
    var a :| a in s;
    var rest := s - {a};
    TextLeqTotal(a, a);
    if rest == {} {
      assert forall x :: x in s ==> x !in rest ==> x == a;
      assert IsLeast(s, a);
    } else {
      HasLeast(rest);
      var m :| IsLeast(rest, m);
      TextLeqTotal(a, m);
      var best := if TextLeq(a, m) then a else m;
      forall x | x in s
        ensures TextLeq(best, x)
      {
        if x != a {
          assert x in rest;
          if best == a {
            TextLeqTransitive(a, m, x);
          }
        }
      }
      assert IsLeast(s, best);
    }
  }

  function Least(s: set<string>): (m: string)
    requires s != {}
    ensures IsLeast(s, m)
  {
    HasLeast(s);
    assert forall a, b :: IsLeast(s, a) && IsLeast(s, b) ==> a == b by {
      forall a, b | IsLeast(s, a) && IsLeast(s, b)
        ensures a == b
      {
        TextLeqTotal(a, b);
      }
    }
    var m :| IsLeast(s, m);
    m
  }

  function Alphabetical(s: set<string>): seq<string>
    decreases |s|
  {
    if s == {} then [] else [Least(s)] + Alphabetical(s - {Least(s)})
  }

  lemma {:induction false} AlphabeticalHolds(s: set<string>)
    ensures |Alphabetical(s)| == |s|
    ensures forall x :: x in Alphabetical(s) <==> x in s
    decreases |s|
  {
    hide IsLeast;
    if s != {} {
      LeastOf(s);
      AlphabeticalHolds(s - {Least(s)});
      assert Alphabetical(s) == [Least(s)] + Alphabetical(s - {Least(s)});
    }
  }

  lemma LeastOf(s: set<string>)
    requires s != {}
    ensures Least(s) in s && forall x :: x in s ==> TextLeq(Least(s), x)
  {
  }

  lemma {:induction false} AlphabeticalSorts(s: set<string>)
    ensures forall i, j :: 0 <= i < j < |Alphabetical(s)| ==>
              TextLeq(Alphabetical(s)[i], Alphabetical(s)[j]) && Alphabetical(s)[i] != Alphabetical(s)[j]
    decreases |s|
  {
    hide TextLeq, IsLeast;
    if s != {} {
      var m, rest := Least(s), s - {Least(s)};
      LeastOf(s);
      AlphabeticalSorts(rest);
      AlphabeticalHolds(rest);
      assert Alphabetical(s) == [m] + Alphabetical(rest);
      forall j | 0 <= j < |Alphabetical(rest)|
        ensures TextLeq(m, Alphabetical(rest)[j]) && m != Alphabetical(rest)[j]
      {
        assert Alphabetical(rest)[j] in rest;
      }
    }
  }

  /** ORDER BY symbol */
  function Sorted(s: set<string>): (r: seq<string>)
    ensures |r| == |s|
    ensures forall x :: x in r <==> x in s
    ensures forall i, j :: 0 <= i < j < |r| ==> TextLeq(r[i], r[j]) && r[i] != r[j]
  {
    AlphabeticalHolds(s);
    AlphabeticalSorts(s);
    Alphabetical(s)
  }
}
