/** Filtering a sequence in order. */
module Filtering {

  function Where<T>(xs: seq<T>, f: T -> bool): seq<T> {
    if xs == [] then []
    else Where(xs[..|xs| - 1], f) + (if f(xs[|xs| - 1]) then [xs[|xs| - 1]] else [])
  }

  lemma WherePush<T>(xs: seq<T>, f: T -> bool, x: T)
    ensures Where(xs + [x], f) == Where(xs, f) + (if f(x) then [x] else [])
  {
    assert (xs + [x])[..|xs|] == xs;
  }

  lemma {:induction false} WhereAppend<T>(a: seq<T>, b: seq<T>, f: T -> bool)
    ensures Where(a + b, f) == Where(a, f) + Where(b, f)
    decreases |b|
  {
    if b == [] {
      assert a + b == a;
    } else {
      var k := |b| - 1;
      WhereAppend(a, b[..k], f);
      assert a + b == (a + b[..k]) + [b[k]];
      WherePush(a + b[..k], f, b[k]);
    }
  }

  lemma {:induction false} WhereBoth<T>(xs: seq<T>, f: T -> bool, g: T -> bool, both: T -> bool)
    requires forall p :: both(p) <==> f(p) && g(p)
    ensures Where(xs, both) == Where(Where(xs, f), g)
  {
    if xs != [] {
      var k := |xs| - 1;
      WhereBoth(xs[..k], f, g, both);
      if f(xs[k]) {
        WherePush(Where(xs[..k], f), g, xs[k]);
      } else {
        assert Where(xs, f) == Where(xs[..k], f);
      }
    }
  }

  lemma {:induction false} WhereNone<T>(xs: seq<T>, f: T -> bool)
    requires forall i | 0 <= i < |xs| :: !f(xs[i])
    ensures Where(xs, f) == []
  {
    if xs != [] {
      WhereNone(xs[..|xs| - 1], f);
    }
  }

  lemma {:induction false} WhereAll<T>(xs: seq<T>, f: T -> bool)
    requires forall i | 0 <= i < |xs| :: f(xs[i])
    ensures Where(xs, f) == xs
  {
    if xs != [] {
      WhereAll(xs[..|xs| - 1], f);
    }
  }

  lemma {:induction false} WhereMembers<T>(xs: seq<T>, f: T -> bool)
    ensures forall x :: x in Where(xs, f) <==> x in xs && f(x)
    ensures |Where(xs, f)| <= |xs|
    ensures |Where(xs, f)| == |xs| ==> Where(xs, f) == xs
  {
    if xs != [] {
      var k := |xs| - 1;
      WhereMembers(xs[..k], f);
      assert xs == xs[..k] + [xs[k]];
    }
  }
}
