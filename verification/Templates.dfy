/**
  Response templates: text with placeholders such as `{count}`, and filling them in.
*/
module Templates {

  predicate IsNameStart(c: char) {
    'a' <= c <= 'z' || c == '_'
  }

  predicate IsNameChar(c: char) {
    IsNameStart(c) || '0' <= c <= '9'
  }

  predicate IsName(s: string) {
    s != [] && IsNameStart(s[0]) && forall i :: 0 <= i < |s| ==> IsNameChar(s[i])
  }

  predicate NoBraces(s: string) {
    forall i :: 0 <= i < |s| ==> s[i] != '{' && s[i] != '}'
  }

  /** The length of the run of name characters at the start. */
  function NameRun(s: string): (n: nat)
    ensures n <= |s| && (forall i :: 0 <= i < n ==> IsNameChar(s[i])) && (n < |s| ==> !IsNameChar(s[n]))
  {
    if s == [] || !IsNameChar(s[0]) then 0 else 1 + NameRun(s[1..])
  }

  /** The `{name}` holes of a template, from left to right. */
  function Placeholders(t: string): seq<string>
    decreases |t|
  {
    if t == [] then []
    else
      var n := NameRun(t[1..]);
      if t[0] == '{' && n > 0 && IsNameStart(t[1]) && n + 1 < |t| && t[n + 1] == '}' then
        [t[1..n + 1]] + Placeholders(t[n + 2..])
      else Placeholders(t[1..])
  }

  function Hole(name: string): string {
    "{" + name + "}"
  }

  /** Every `what` in the text, from the left, replaced. */
  function Replace(t: string, what: string, with: string): string
    requires what != []
    decreases |t|
  {
    if t == [] then []
    else if what <= t then with + Replace(t[|what|..], what, with)
    else [t[0]] + Replace(t[1..], what, with)
  }

  // ---------------------------------------------------------------------------------------
  // A template as text and holes
  // ---------------------------------------------------------------------------------------

  datatype Part = Lit(text: string) | Gap(name: string)

  ghost predicate Plain(ps: seq<Part>) {
    forall i :: 0 <= i < |ps| ==> if ps[i].Lit? then NoBraces(ps[i].text) else IsName(ps[i].name)
  }

  function PartText(p: Part): string {
    match p case Lit(s) => s case Gap(n) => Hole(n)
  }

  function TextOf(ps: seq<Part>): string {
    if ps == [] then [] else PartText(ps[0]) + TextOf(ps[1..])
  }

  function Fill(p: Part, name: string, value: string): Part {
    if p == Gap(name) then Lit(value) else p
  }

  function FillAll(ps: seq<Part>, name: string, value: string): seq<Part> {
    if ps == [] then [] else [Fill(ps[0], name, value)] + FillAll(ps[1..], name, value)
  }

  /** The only braces of the template are those of its placeholders. */
  ghost predicate Flat(t: string) {
    exists ps :: Plain(ps) && TextOf(ps) == t
  }

  lemma {:induction false} ReplaceSkips(s: string, rest: string, name: string, value: string)
    requires forall i :: 0 <= i < |s| ==> s[i] != '{'
    ensures Replace(s + rest, Hole(name), value) == s + Replace(rest, Hole(name), value)
    decreases |s|
  {
    if s == [] {
      assert s + rest == rest;
    } else {
      assert (s + rest)[0] == s[0] && (s + rest)[1..] == s[1..] + rest;
      ReplaceSkips(s[1..], rest, name, value);
      assert s == [s[0]] + s[1..];
    }
  }

  lemma ReplaceHits(rest: string, name: string, value: string)
    ensures Replace(Hole(name) + rest, Hole(name), value) == value + Replace(rest, Hole(name), value)
  {
    assert (Hole(name) + rest)[|Hole(name)|..] == rest;
  }

  lemma OtherHole(rest: string, name: string, other: string)
    requires IsName(name) && IsName(other) && name != other
    ensures !(Hole(name) <= Hole(other) + rest)
  {
    var t, hole := Hole(other) + rest, Hole(name);
    assert forall i :: 0 <= i < |name| ==> hole[i + 1] == name[i];
    assert forall i :: 0 <= i < |other| ==> t[i + 1] == other[i];
    assert t[|other| + 1] == '}' && hole[|name| + 1] == '}';
    if |name| < |other| {
      assert IsNameChar(t[|name| + 1]);
    } else if |other| < |name| {
      assert IsNameChar(hole[|other| + 1]);
    } else {
      var i :| 0 <= i < |name| && name[i] != other[i];
      assert hole[i + 1] != t[i + 1];
    }
  }

  lemma ReplacePasses(rest: string, name: string, other: string, value: string)
    requires IsName(name) && IsName(other) && name != other
    ensures Replace(Hole(other) + rest, Hole(name), value) == Hole(other) + Replace(rest, Hole(name), value)
  {
    OtherHole(rest, name, other);
    var t, tail := Hole(other) + rest, other + "}";
    assert t[0] == '{' && t[1..] == tail + rest;
    ReplaceSkips(tail, rest, name, value);
    assert Hole(other) == "{" + tail;
  }

  /** Replacing a hole in the text is filling it in the parts. */
  lemma {:induction false} ReplaceFills(ps: seq<Part>, name: string, value: string)
    requires Plain(ps) && IsName(name)
    ensures Replace(TextOf(ps), Hole(name), value) == TextOf(FillAll(ps, name, value))
    decreases |ps|
  {
    if ps != [] {
      var rest := ps[1..];
      ReplaceFills(rest, name, value);
      var filled := FillAll(rest, name, value);
      assert FillAll(ps, name, value)[1..] == filled;
      match ps[0]
      case Lit(s) =>
        ReplaceSkips(s, TextOf(rest), name, value);
      case Gap(n) =>
        if n == name {
          ReplaceHits(TextOf(rest), name, value);
        } else {
          ReplacePasses(TextOf(rest), name, n, value);
        }
    }
  }

  lemma {:induction false} FillingStaysPlain(ps: seq<Part>, name: string, value: string)
    requires Plain(ps) && NoBraces(value)
    ensures Plain(FillAll(ps, name, value)) && |FillAll(ps, name, value)| == |ps|
    ensures Gap(name) !in FillAll(ps, name, value)
    ensures forall n :: n != name ==> (Gap(n) in FillAll(ps, name, value) <==> Gap(n) in ps)
    decreases |ps|
  {
    if ps != [] {
      FillingStaysPlain(ps[1..], name, value);
      assert ps == [ps[0]] + ps[1..];
    }
  }

  lemma {:induction false} NothingToFill(ps: seq<Part>, name: string, value: string)
    requires Gap(name) !in ps
    ensures FillAll(ps, name, value) == ps
    decreases |ps|
  {
    if ps != [] {
      NothingToFill(ps[1..], name, value);
      assert ps == [ps[0]] + ps[1..];
    }
  }

  // ---------------------------------------------------------------------------------------
  // Several names
  // ---------------------------------------------------------------------------------------

  /** Every name replaced by what is said for it, one after the other. */
  function ReplaceAll(t: string, names: seq<string>, say: string -> string): string
    decreases |names|
  {
    if names == [] then t else ReplaceAll(Replace(t, Hole(names[0]), say(names[0])), names[1..], say)
  }

  /** The names that were not seen before, each once. */
  function Distinct(names: seq<string>, seen: set<string>): seq<string> {
    if names == [] then []
    else if names[0] in seen then Distinct(names[1..], seen)
    else [names[0]] + Distinct(names[1..], seen + {names[0]})
  }

  predicate NoRepeats(names: seq<string>) {
    forall i, j :: 0 <= i < j < |names| ==> names[i] != names[j]
  }

  lemma {:induction false} DistinctAreAll(names: seq<string>, seen: set<string>)
    requires NoRepeats(names) && forall i :: 0 <= i < |names| ==> names[i] !in seen
    ensures Distinct(names, seen) == names
  {
    if names != [] {
      DistinctAreAll(names[1..], seen + {names[0]});
    }
  }

  lemma {:induction false} PlaceholdersAreNames(t: string)
    ensures forall i :: 0 <= i < |Placeholders(t)| ==> IsName(Placeholders(t)[i])
    decreases |t|
  {
    if t != [] {
      var n := NameRun(t[1..]);
      if t[0] == '{' && n > 0 && IsNameStart(t[1]) && n + 1 < |t| && t[n + 1] == '}' {
        PlaceholdersAreNames(t[n + 2..]);
        assert forall i :: 0 <= i < n ==> t[1..n + 1][i] == t[1..][i];
      } else {
        PlaceholdersAreNames(t[1..]);
      }
    }
  }

  ghost predicate Said(names: seq<string>, say: string -> string) {
    forall i :: 0 <= i < |names| ==> IsName(names[i]) && NoBraces(say(names[i]))
  }

  /** Replacing a name again that was seen changes nothing. */
  lemma {:induction false} SeenIsSkipped(ps: seq<Part>, names: seq<string>, seen: set<string>, say: string -> string)
    requires Plain(ps) && Said(names, say) && forall n :: n in seen ==> Gap(n) !in ps
    ensures ReplaceAll(TextOf(ps), names, say) == ReplaceAll(TextOf(ps), Distinct(names, seen), say)
    decreases |names|
  {
    if names != [] {
      var name, value := names[0], say(names[0]);
      var filled := FillAll(ps, name, value);
      ReplaceFills(ps, name, value);
      FillingStaysPlain(ps, name, value);
      if name in seen {
        NothingToFill(ps, name, value);
        SeenIsSkipped(ps, names[1..], seen, say);
      } else {
        SeenIsSkipped(filled, names[1..], seen + {name}, say);
      }
    }
  }

  // ---------------------------------------------------------------------------------------
  // When once is enough
  // ---------------------------------------------------------------------------------------

  ghost predicate Holds(t: string, what: string) {
    t != [] && (what <= t || Holds(t[1..], what))
  }

  lemma {:induction false} HoldsLater(t: string, k: nat, what: string)
    requires k <= |t| && Holds(t[k..], what)
    ensures Holds(t, what)
    decreases k
  {
    if k > 0 {
      assert t[1..][k - 1..] == t[k..];
      HoldsLater(t[1..], k - 1, what);
    } else {
      assert t[0..] == t;
    }
  }

  /** Filled in name after name, a name that has had its turn, or is in `seen`, stands in the text
      when it is named again. */
  ghost predicate FindsAgain(t: string, names: seq<string>, seen: set<string>, say: string -> string)
    decreases |names|
  {
    names != [] &&
      (|| (names[0] in seen && Holds(t, Hole(names[0])))
       || FindsAgain(Replace(t, Hole(names[0]), say(names[0])), names[1..], seen + {names[0]}, say))
  }

  lemma {:induction false} ReplacesNothing(t: string, what: string, with: string)
    requires what != [] && !Holds(t, what)
    ensures Replace(t, what, with) == t
    decreases |t|
  {
    if t != [] {
      ReplacesNothing(t[1..], what, with);
      assert t == [t[0]] + t[1..];
    }
  }

  /** If none does, filling in every placeholder is filling in each name once. */
  lemma {:induction false} OnceIsEnough(t: string, names: seq<string>, seen: set<string>, say: string -> string)
    requires !FindsAgain(t, names, seen, say)
    ensures ReplaceAll(t, names, say) == ReplaceAll(t, Distinct(names, seen), say)
    decreases |names|
  {
    if names != [] {
      var name := names[0];
      OnceIsEnough(Replace(t, Hole(name), say(name)), names[1..], seen + {name}, say);
      if name in seen {
        ReplacesNothing(t, Hole(name), say(name));
        assert seen + {name} == seen;
      } else {
        assert Distinct(names, seen)[1..] == Distinct(names[1..], seen + {name});
      }
    }
  }

  lemma {:induction false} NoRepeatFindsNone(t: string, names: seq<string>, seen: set<string>, say: string -> string)
    requires NoRepeats(names) && forall i :: 0 <= i < |names| ==> names[i] !in seen
    ensures !FindsAgain(t, names, seen, say)
    decreases |names|
  {
    if names != [] {
      NoRepeatFindsNone(Replace(t, Hole(names[0]), say(names[0])), names[1..], seen + {names[0]}, say);
    }
  }

  // ---------------------------------------------------------------------------------------
  // Where it is not
  // ---------------------------------------------------------------------------------------

  lemma {:induction false} PlaceholdersAreHeld(t: string, name: string)
    requires name in Placeholders(t)
    ensures Holds(t, Hole(name))
    decreases |t|
  {
    var n := NameRun(t[1..]);
    if t[0] == '{' && n > 0 && IsNameStart(t[1]) && n + 1 < |t| && t[n + 1] == '}' {
      if name == t[1..n + 1] {
        assert Hole(name) == t[..n + 2];
      } else {
        PlaceholdersAreHeld(t[n + 2..], name);
        HoldsLater(t, n + 2, Hole(name));
      }
    } else {
      PlaceholdersAreHeld(t[1..], name);
    }
  }

  lemma {:induction false} ReplacedBySelf(t: string, what: string)
    requires what != []
    ensures Replace(t, what, what) == t
    decreases |t|
  {
    if t != [] {
      if what <= t {
        var rest := t[|what|..];
        ReplacedBySelf(rest, what);
        assert Replace(t, what, what) == what + rest == t;
      } else {
        var rest := t[1..];
        ReplacedBySelf(rest, what);
        assert Replace(t, what, what) == [t[0]] + rest == t;
      }
    }
  }

  /** Replaced by itself and more, a text that was there is there again, and the whole is longer. */
  lemma {:induction false} ReplacedGrows(t: string, what: string, more: string)
    requires what != []
    ensures |Replace(t, what, what + more)| >= |t|
    ensures Holds(t, what) && more != [] ==> |Replace(t, what, what + more)| > |t| && Holds(Replace(t, what, what + more), what)
    decreases |t|
  {
    if t != [] {
      if what <= t {
        var rest := t[|what|..];
        ReplacedGrows(rest, what, more);
        assert what <= what + more + Replace(rest, what, what + more);
      } else {
        ReplacedGrows(t[1..], what, more);
        var next := Replace(t, what, what + more);
        assert next[1..] == Replace(t[1..], what, what + more);
      }
    }
  }

  function Count(names: seq<string>, name: string): nat {
    if names == [] then 0 else (if names[0] == name then 1 else 0) + Count(names[1..], name)
  }

  /** A name replaced by itself and more, `k` times. */
  function Times(t: string, name: string, more: string, k: nat): string
    decreases k
  {
    if k == 0 then t else Times(Replace(t, Hole(name), Hole(name) + more), name, more, k - 1)
  }

  /** One name becomes itself and more; the others stay. */
  function Marked(name: string, more: string): string -> string {
    n => if n == name then Hole(n) + more else Hole(n)
  }

  lemma {:induction false} AllIsTimes(t: string, names: seq<string>, name: string, more: string)
    ensures ReplaceAll(t, names, Marked(name, more)) == Times(t, name, more, Count(names, name))
    decreases |names|
  {
    if names != [] {
      if names[0] == name {
        AllIsTimes(Replace(t, Hole(name), Hole(name) + more), names[1..], name, more);
      } else {
        ReplacedBySelf(t, Hole(names[0]));
        AllIsTimes(t, names[1..], name, more);
      }
    }
  }

  lemma {:induction false} TimesGrows(t: string, name: string, more: string, k: nat)
    requires Holds(t, Hole(name)) && more != []
    ensures |Times(t, name, more, k)| >= |t| + k
    decreases k
  {
    if k > 0 {
      ReplacedGrows(t, Hole(name), more);
      TimesGrows(Replace(t, Hole(name), Hole(name) + more), name, more, k - 1);
    }
  }

  lemma {:induction false} DistinctCounts(names: seq<string>, seen: set<string>, name: string)
    ensures Count(Distinct(names, seen), name) == if name in seen || name !in names then 0 else 1
    decreases |names|
  {
    if names != [] {
      DistinctCounts(names[1..], if names[0] in seen then seen else seen + {names[0]}, name);
      assert names == [names[0]] + names[1..];
      if names[0] !in seen {
        assert Distinct(names, seen)[1..] == Distinct(names[1..], seen + {names[0]});
      }
    }
  }

  lemma {:induction false} CountsAnother(names: seq<string>, i: nat)
    requires i < |names|
    ensures Count(names, names[i]) >= 1
    ensures forall j :: i < j < |names| && names[j] == names[i] ==> Count(names, names[i]) >= 2
    decreases |names|
  {
    if i > 0 {
      CountsAnother(names[1..], i - 1);
      assert forall j :: i < j < |names| ==> names[j] == names[1..][j - 1];
    } else {
      forall j | 0 < j < |names| && names[j] == names[0] ensures Count(names, names[0]) >= 2 {
        CountsAnother(names[1..], j - 1);
      }
    }
  }

  /** A name given twice is filled in twice, which is not filling it in once. */
  lemma {:induction false} TwiceIsMore(t: string, name: string, more: string)
    requires Count(Placeholders(t), name) >= 2 && name in Placeholders(t) && more != []
    ensures ReplaceAll(t, Placeholders(t), Marked(name, more)) != ReplaceAll(t, Distinct(Placeholders(t), {}), Marked(name, more))
  {
    var names, hole := Placeholders(t), Hole(name);
    var next := Replace(t, hole, hole + more);
    AllIsTimes(t, names, name, more);
    AllIsTimes(t, Distinct(names, {}), name, more);
    DistinctCounts(names, {}, name);
    PlaceholdersAreHeld(t, name);
    ReplacedGrows(t, hole, more);
    TimesGrows(next, name, more, Count(names, name) - 1);
    assert Times(t, name, more, 1) == Times(next, name, more, 0) == next;
  }

  /** A placeholder between braces of its own, and the placeholder once more. */
  function Nested(name: string): string {
    "{" + (Hole(name) + ("}" + Hole(name)))
  }

  lemma {:induction false} NameRuns(name: string, rest: string)
    requires forall i :: 0 <= i < |name| ==> IsNameChar(name[i])
    ensures NameRun(name + "}" + rest) == |name|
    decreases |name|
  {
    if name != [] {
      assert (name + "}" + rest)[1..] == name[1..] + "}" + rest;
      NameRuns(name[1..], rest);
    }
  }

  lemma HoleParts(name: string, rest: string)
    ensures var t := Hole(name) + rest;
      t[1..] == name + "}" + rest && t[1..|name| + 1] == name && t[|name| + 1] == '}' && t[|name| + 2..] == rest
  {
  }

  lemma {:induction false} HoleIsPlaceholder(name: string, rest: string)
    requires IsName(name)
    ensures Placeholders(Hole(name) + rest) == [name] + Placeholders(rest)
  {
    HoleParts(name, rest);
    NameRuns(name, rest);
  }

  lemma {:induction false} BraceIsNoPlaceholder(brace: char, rest: string)
    requires (brace == '{' || brace == '}') && rest != [] && rest[0] == '{'
    ensures Placeholders([brace] + rest) == Placeholders(rest)
  {
    assert ([brace] + rest)[1..] == rest && NameRun(rest) == 0;
  }

  lemma {:induction false} LastName(name: string)
    requires IsName(name)
    ensures Placeholders(['}'] + Hole(name)) == [name]
  {
    HoleIsPlaceholder(name, []);
    assert Hole(name) + [] == Hole(name);
    BraceIsNoPlaceholder('}', Hole(name));
  }

  lemma {:induction false} NestedNames(name: string)
    requires IsName(name)
    ensures Placeholders(Nested(name)) == [name, name]
  {
    var rest := ['}'] + Hole(name);
    LastName(name);
    HoleIsPlaceholder(name, rest);
    BraceIsNoPlaceholder('{', Hole(name) + rest);
  }

  lemma {:induction false} BraceIsPassed(name: string, value: string, rest: string)
    requires IsName(name) && rest != [] && rest[0] == '{'
    ensures Replace("{" + rest, Hole(name), value) == "{" + Replace(rest, Hole(name), value)
  {
    var t := "{" + rest;
    assert t[1..] == rest && Hole(name)[1] == name[0] && t[1] == '{';
  }

  lemma {:induction false} LastReplaced(name: string, value: string)
    ensures Replace("}" + Hole(name), Hole(name), value) == "}" + value
  {
    ReplaceHits([], name, value);
    assert Hole(name) + [] == Hole(name) && value + [] == value;
    ReplaceSkips("}", Hole(name), name, value);
  }

  /** Filled in once, it holds the placeholder for its value. */
  lemma {:induction false} NestedReplaced(name: string, value: string)
    requires IsName(name)
    ensures Replace(Nested(name), Hole(name), value) == "{" + (value + ("}" + value))
  {
    var middle := "}" + Hole(name);
    LastReplaced(name, value);
    ReplaceHits(middle, name, value);
    BraceIsPassed(name, value, Hole(name) + middle);
  }

  lemma HoleThen(name: string, rest: string)
    ensures "{" + (name + ("}" + rest)) == Hole(name) + rest
  {
    assert name + ("}" + rest) == name + "}" + rest;
    assert "{" + (name + "}" + rest) == "{" + (name + "}") + rest;
  }

  lemma NameIsNoHole(name: string)
    requires IsName(name)
    ensures Replace(name, Hole(name), name) == name
  {
    ReplaceSkips(name, [], name, name);
    assert name + [] == name;
  }

  lemma {:induction false} NestedTwice(name: string)
    requires IsName(name)
    ensures Replace("{" + (name + ("}" + name)), Hole(name), name) == name + name
  {
    ReplaceHits(name, name, name);
    HoleThen(name, name);
    NameIsNoHole(name);
  }

  lemma NamedTwice(t: string, name: string, say: string -> string)
    ensures Distinct([name, name], {}) == [name]
    ensures ReplaceAll(t, [name, name], say) == Replace(Replace(t, Hole(name), say(name)), Hole(name), say(name))
  {
    assert [name, name][1..] == [name] && [name][1..] == [];
    var once := Replace(t, Hole(name), say(name));
    assert ReplaceAll(once, [name], say) == ReplaceAll(Replace(once, Hole(name), say(name)), [], say);
    var seen: set<string> := {};
    assert Distinct([name], seen + {name}) == Distinct([], seen + {name}) == [];
    assert Distinct([name, name], seen) == [name] + Distinct([name], seen + {name});
  }
}
