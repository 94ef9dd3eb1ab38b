/**
  The edit distance between what was heard and a name of the list.

  `Dist` is the textbook recurrence; `Edit` scripts say independently what an insertion, a
  deletion and a substitution are. The two-row loop, the recurrence and the cheapest script
  are one number, and that number is a metric.
*/
module EditDistance {

  function Min(x: nat, y: nat): nat {
    if x < y then x else y
  }

  function Mismatch(x: char, y: char): nat {
    if x == y then 0 else 1
  }

  function Front(s: string): string
    requires s != []
  {
    s[..|s| - 1]
  }

  function Last(s: string): char
    requires s != []
  {
    s[|s| - 1]
  }

  function Dist(a: string, b: string): nat
    decreases |a| + |b|
  {
    if a == [] then |b|
    else if b == [] then |a|
    else Min(Min(Dist(Front(a), Front(b)) + Mismatch(Last(a), Last(b)), Dist(Front(a), b) + 1), Dist(a, Front(b)) + 1)
  }

  // ---------------------------------------------------------------------------------------
  // Scripts
  // ---------------------------------------------------------------------------------------

  /** One step of turning a word into another, letter by letter from the left. */
  datatype Edit = Keep | Substitute(to: char) | Insert(c: char) | Delete

  function Cost(script: seq<Edit>): nat {
    if script == [] then 0
    else Cost(script[..|script| - 1]) + if script[|script| - 1].Keep? then 0 else 1
  }

  /** `script` turns exactly `a` into exactly `b`. */
  predicate Turns(script: seq<Edit>, a: string, b: string) {
    if script == [] then a == [] && b == []
    else
      var rest := script[..|script| - 1];
      match script[|script| - 1]
      case Keep => a != [] && b != [] && Last(a) == Last(b) && Turns(rest, Front(a), Front(b))
      case Substitute(c) => a != [] && b != [] && Last(b) == c && Turns(rest, Front(a), Front(b))
      case Insert(c) => b != [] && Last(b) == c && Turns(rest, a, Front(b))
      case Delete => a != [] && Turns(rest, Front(a), b)
  }

  /** A script that costs no more than the distance. */
  function Cheapest(a: string, b: string): (script: seq<Edit>)
    ensures Turns(script, a, b) && Cost(script) == Dist(a, b)
    decreases |a| + |b|
  {
    if a == [] && b == [] then []
    else if b != [] && (a == [] || Dist(a, b) == Dist(a, Front(b)) + 1) then Cheapest(a, Front(b)) + [Insert(Last(b))]
    else if a != [] && (b == [] || Dist(a, b) == Dist(Front(a), b) + 1) then Cheapest(Front(a), b) + [Delete]
    else Cheapest(Front(a), Front(b)) + [if Last(a) == Last(b) then Keep else Substitute(Last(b))]
  }

  /** No script is cheaper than the distance. */
  lemma {:induction false} NoScriptIsCheaper(script: seq<Edit>, a: string, b: string)
    requires Turns(script, a, b)
    ensures Dist(a, b) <= Cost(script)
    decreases |script|
  {
    if script != [] {
      var rest := script[..|script| - 1];
      match script[|script| - 1]
      case Keep => NoScriptIsCheaper(rest, Front(a), Front(b));
      case Substitute(c) => NoScriptIsCheaper(rest, Front(a), Front(b));
      case Insert(c) =>
        NoScriptIsCheaper(rest, a, Front(b));
      case Delete =>
        NoScriptIsCheaper(rest, Front(a), b);
    }
  }

  /** `d` is the distance exactly when it is the cost of a cheapest script. */
  lemma DistIsLeastCost(a: string, b: string, d: nat)
    ensures d == Dist(a, b) <==>
      && (exists script :: Turns(script, a, b) && Cost(script) == d)
      && (forall script :: Turns(script, a, b) ==> d <= Cost(script))
  {
    var best := Cheapest(a, b);
    forall script | Turns(script, a, b) ensures Dist(a, b) <= Cost(script) {
      NoScriptIsCheaper(script, a, b);
    }
    assert Turns(best, a, b) && Cost(best) == Dist(a, b);
    if script :| Turns(script, a, b) && Cost(script) == d {
      assert Dist(a, b) <= d;
    }
  }

  // ---------------------------------------------------------------------------------------
  // The metric
  // ---------------------------------------------------------------------------------------

  lemma {:induction false} DistBounds(a: string, b: string)
    ensures |a| <= |b| + Dist(a, b)
    ensures |b| <= |a| + Dist(a, b)
    ensures Dist(a, b) <= if |a| < |b| then |b| else |a|
    decreases |a| + |b|
  {
    if a != [] && b != [] {
      DistBounds(Front(a), Front(b));
      DistBounds(Front(a), b);
      DistBounds(a, Front(b));
    }
  }

  lemma {:induction false} DistIdentity(a: string, b: string)
    ensures Dist(a, b) == 0 <==> a == b
    decreases |a| + |b|
  {
    if a != [] && b != [] {
      DistIdentity(Front(a), Front(b));
      assert a == Front(a) + [Last(a)] && b == Front(b) + [Last(b)];
    }
  }

  lemma {:induction false} DistSymmetric(a: string, b: string)
    ensures Dist(a, b) == Dist(b, a)
    decreases |a| + |b|
  {
    if a != [] && b != [] {
      DistSymmetric(Front(a), Front(b));
      DistSymmetric(Front(a), b);
      DistSymmetric(a, Front(b));
    }
  }

  /** Each of the three ways to end an edit is no cheaper than the distance. */
  lemma DistSteps(a: string, b: string)
    ensures a != [] ==> Dist(a, b) <= Dist(Front(a), b) + 1
    ensures b != [] ==> Dist(a, b) <= Dist(a, Front(b)) + 1
  {
    if a != [] && b == [] {
      assert Dist(Front(a), b) == |a| - 1;
    }
  }

  lemma {:induction false} DistTriangle(a: string, b: string, c: string)
    ensures Dist(a, c) <= Dist(a, b) + Dist(b, c)
    decreases |a| + |b| + |c|
  {
    DistBounds(a, c);
    DistBounds(a, b);
    DistBounds(b, c);
    if a != [] && b != [] && c != [] {
      DistSteps(a, c);
      if Dist(a, b) == Dist(Front(a), b) + 1 {
        DistTriangle(Front(a), b, c);
      } else if Dist(b, c) == Dist(b, Front(c)) + 1 {
        DistTriangle(a, b, Front(c));
      } else if Dist(b, c) == Dist(Front(b), c) + 1 {
        if Dist(a, b) == Dist(a, Front(b)) + 1 {
          DistTriangle(a, Front(b), c);
        } else {
          DistTriangle(Front(a), Front(b), c);
        }
      } else {
        if Dist(a, b) == Dist(a, Front(b)) + 1 {
          DistTriangle(a, Front(b), Front(c));
        } else {
          DistTriangle(Front(a), Front(b), Front(c));
        }
      }
    }
  }

  // ---------------------------------------------------------------------------------------
  // The loop
  // ---------------------------------------------------------------------------------------

  /** Row `i` of the table: the distances from the first `i` letters of `a`. */
  ghost function Row(a: string, b: string, i: nat): (r: seq<nat>)
    requires i <= |a|
    ensures |r| == |b| + 1
  {
    seq(|b| + 1, j requires 0 <= j <= |b| => Dist(a[..i], b[..j]))
  }

  lemma RowStart(a: string, b: string, i: nat)
    requires i <= |a|
    ensures Row(a, b, i)[0] == i
  {
  }

  lemma RowStep(a: string, b: string, i: nat, j: nat)
    requires i < |a| && j < |b|
    ensures var above, row := Row(a, b, i), Row(a, b, i + 1);
      row[j + 1] == Min(Min(above[j] + Mismatch(a[i], b[j]), above[j + 1] + 1), row[j] + 1)
  {
    var p, q := a[..i + 1], b[..j + 1];
    assert Front(p) == a[..i] && Front(q) == b[..j] && Last(p) == a[i] && Last(q) == b[j];
  }

  /** The next row from the one above it. */
  method NextRow(a: string, b: string, i: nat, prev: array<nat>) returns (cur: array<nat>)
    requires i < |a| && prev[..] == Row(a, b, i)
    ensures cur[..] == Row(a, b, i + 1)
  {
    cur := new nat[|b| + 1](_ => i + 1);
    ghost var above, row := Row(a, b, i), Row(a, b, i + 1);
    RowStart(a, b, i + 1);
    for j := 0 to |b|
      invariant prev[..] == above
      invariant cur[..j + 1] == row[..j + 1]
    {
      RowStep(a, b, i, j);
      assert prev[j] == above[j] && prev[j + 1] == above[j + 1] && cur[j] == row[j];
      cur[j + 1] := Min(Min(prev[j] + Mismatch(a[i], b[j]), prev[j + 1] + 1), cur[j] + 1);
    }
  }

  /** The two-row dynamic program. */
  method Distance(a: string, b: string) returns (d: nat)
    ensures d == Dist(a, b)
  {
    var prev := new nat[|b| + 1](j => j);
    for i := 0 to |a|
      invariant prev[..] == Row(a, b, i)
    {
      prev := NextRow(a, b, i, prev);
    }
    assert a[..|a|] == a && b[..|b|] == b;
    assert prev[..][|b|] == Row(a, b, |a|)[|b|];
    d := prev[|b|];
  }

  /** Few enough edits, for the words' length, to be taken for the same name. */
  predicate CloseEnough(heard: string, key: string) {
    |key| >= 5 && |heard| >= 5 && Dist(heard, key) <= if |key| >= 8 then 2 else 1
  }

  /** Two names both taken for what was heard are themselves at most four letters apart. */
  lemma CloseNamesAreClose(heard: string, key: string, other: string)
    requires CloseEnough(heard, key) && CloseEnough(heard, other)
    ensures Dist(key, other) <= 4
    ensures |key| < 8 && |other| < 8 ==> Dist(key, other) <= 2
  {
    DistSymmetric(heard, key);
    DistTriangle(key, heard, other);
  }
}
