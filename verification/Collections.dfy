/** Facts about finite sets and lists of ids. */
module Collections {

  datatype Option<T> = None | Some(value: T)

  lemma Inhabited(s: set<int>)
    requires s != {}
    ensures exists x :: x in s
  {
    assert (forall x :: x !in s) ==> s == {};
  }

  lemma SubsetSize(s: set<int>, t: set<int>)
    requires s <= t
    ensures |s| <= |t|
    ensures |s| == |t| ==> s == t
  {
    assert t == s + (t - s);
    assert |t| == |s| + |t - s|;
  }

  /** A larger set has an element outside a smaller one. */
  lemma Outside(s: set<int>, t: set<int>) returns (x: int)
    requires |s| > |t|
    ensures x in s && x !in t
  {
    assert s == s - t + s * t;
    SubsetSize(s * t, t);
    Inhabited(s - t);
    x :| x in s - t;
  }

  lemma {:induction false} Highest(s: set<int>) returns (x: int)
    requires s != {}
    ensures x in s && forall y :: y in s ==> y <= x
    decreases s
  {
    Inhabited(s);
    x :| x in s;
    var rest := s - {x};
    assert forall y :: y in s ==> y == x || y in rest;
    if rest != {} {
      var z := Highest(rest);
      x := if z > x then z else x;
    }
  }

  /** The first position of x, or the length of l. */
  function Find(l: seq<int>, x: int): (i: nat)
    ensures i <= |l|
    ensures i < |l| ==> l[i] == x
    ensures forall j :: 0 <= j < i ==> l[j] != x
  {
    if |l| == 0 || l[0] == x then 0 else 1 + Find(l[1..], x)
  }

  /** l lists exactly the elements of s, once each. */
  ghost predicate Lists(l: seq<int>, s: set<int>) {
    && (forall i, j :: 0 <= i < j < |l| ==> l[i] != l[j])
    && (forall i :: 0 <= i < |l| ==> l[i] in s)
    && forall x :: x in s ==> Find(l, x) < |l|
  }

  lemma ListsOneSet(l: seq<int>, s: set<int>, t: set<int>)
    requires Lists(l, s) && Lists(l, t)
    ensures s == t
  {
    forall x | x in s || x in t ensures x in s && x in t {
      assert l[Find(l, x)] == x;
    }
  }

  lemma {:induction false} ListSize(l: seq<int>, s: set<int>)
    requires Lists(l, s)
    ensures |s| == |l|
    decreases |l|
  {
    if l == [] {
      if s != {} {
        Inhabited(s);
      }
    } else {
      var x, rest := l[0], s - {l[0]};
      forall y | y in rest ensures Find(l[1..], y) < |l[1..]| {
        assert Find(l, y) < |l| && l[Find(l, y)] == y;
        assert l[1..][Find(l, y) - 1] == y;
      }
      ListSize(l[1..], rest);
      assert s == rest + {x};
    }
  }

  lemma TimesOneMore(k: nat, w: int)
    requires k > 0
    ensures k * w == w + (k - 1) * w
  {
  }
}
