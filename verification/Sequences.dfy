/** Facts about sequences that are wanted one at a time. */
module Sequences {

  lemma Regroup<T>(a: seq<T>, b: seq<T>, c: seq<T>)
    ensures a + b + c == a + (b + c)
  {
  }

  lemma Regroup4<T>(a: seq<T>, b: seq<T>, c: seq<T>, d: seq<T>)
    ensures a + b + c + d == a + (b + c + d)
  {
    Regroup(a, b, c);
    Regroup(a, b + c, d);
  }

  lemma Regroup5<T>(a: seq<T>, b: seq<T>, c: seq<T>, d: seq<T>, e: seq<T>)
    ensures a + b + c + d + e == a + (b + c + d + e)
  {
    Regroup4(a, b, c, d);
    Regroup(a, b + c + d, e);
  }

  lemma Regroup6<T>(a: seq<T>, b: seq<T>, c: seq<T>, d: seq<T>, e: seq<T>, f: seq<T>)
    ensures a + b + c + d + e + f == a + (b + c + d + e + f)
  {
    Regroup5(a, b, c, d, e);
    Regroup(a, b + c + d + e, f);
  }

  /** Both ends off, in either order. */
  lemma Inner<T>(s: seq<T>)
    requires |s| >= 2
    ensures s[1..][..|s| - 2] == s[..|s| - 1][1..]
  {
    assert s[1..][..|s| - 2] == s[1..|s| - 1];
    assert s[..|s| - 1][1..] == s[1..|s| - 1];
  }
}
