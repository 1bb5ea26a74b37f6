// Sums of an integer function over a finite set.
module Sums {
  ghost function Sum<T>(s: set<T>, f: T -> int): int {
    if s == {} then 0 else
      var x :| x in s;
      f(x) + Sum(s - {x}, f)
  }

  lemma Extract<T>(s: set<T>, f: T -> int, x: T)
    requires x in s
    ensures Sum(s, f) == f(x) + Sum(s - {x}, f)
    decreases |s|
  {
    var y :| y in s && Sum(s, f) == f(y) + Sum(s - {y}, f);
    if y != x {
      Extract(s - {y}, f, x);
      Extract(s - {x}, f, y);
      assert s - {y} - {x} == s - {x} - {y};
    }
  }

  lemma Without<T>(s: set<T>, f: T -> int, x: T)
    ensures Sum(s, f) == Sum(s - {x}, f) + (if x in s then f(x) else 0)
  {
    if x in s {
      Extract(s, f, x);
    } else {
      assert s - {x} == s;
    }
  }

  lemma {:induction false} Same<T>(s: set<T>, f: T -> int, g: T -> int)
    requires forall x | x in s :: f(x) == g(x)
    ensures Sum(s, f) == Sum(s, g)
    decreases |s|
  {
    if s != {} {
      var x :| x in s;
      Same(s - {x}, f, g);
      Extract(s, f, x);
      Extract(s, g, x);
    }
  }

  lemma {:induction false} Monotone<T>(s: set<T>, t: set<T>, f: T -> int)
    requires s <= t && forall x | x in t :: f(x) >= 0
    ensures 0 <= Sum(s, f) <= Sum(t, f)
    decreases |s| + |t|
  {
    if s != {} {
      var x :| x in s;
      Monotone(s - {x}, t - {x}, f);
      Extract(s, f, x);
      Extract(t, f, x);
    } else if t != {} {
      var x :| x in t;
      Monotone(s, t - {x}, f);
      Extract(t, f, x);
    }
  }
}
