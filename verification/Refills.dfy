/**
  Filling in every placeholder of a template against filling in each name once.

  With values free of braces the two give the same text if and only if no name that was filled in
  before stands in the text again when it is named again. Where one does, the text filled in once
  keeps it, with its braces, to the end: the proof follows both texts as one list of tokens.
*/
module Refills {
  import opened Templates

  /** A character of both texts; or what stays in the one text, and what it was filled in to in the other. */
  datatype Token = Ch(c: char) | Kept(text: string, filled: string)

  /** The text in which each name is filled in once. */
  function Once(ts: seq<Token>): string {
    if ts == [] then [] else (if ts[0].Ch? then [ts[0].c] else ts[0].text) + Once(ts[1..])
  }

  /** The text in which every placeholder is. */
  function Each(ts: seq<Token>): string {
    if ts == [] then [] else (if ts[0].Ch? then [ts[0].c] else ts[0].filled) + Each(ts[1..])
  }

  /** The text begins and ends with a brace, and no name of `left` has a placeholder in it. */
  ghost predicate Shut(text: string, left: set<string>) {
    && text != [] && text[0] == '{' && text[|text| - 1] == '}'
    && forall n :: n in left ==> !Holds(text, Hole(n))
  }

  ghost predicate Fine(x: Token, left: set<string>) {
    x.Kept? ==> NoBraces(x.filled) && Shut(x.text, left)
  }

  ghost predicate AllFine(ts: seq<Token>, left: set<string>) {
    forall i :: 0 <= i < |ts| ==> Fine(ts[i], left)
  }

  predicate AllChars(ts: seq<Token>) {
    forall i :: 0 <= i < |ts| ==> ts[i].Ch?
  }

  function Chars(s: string): (ts: seq<Token>)
    ensures |ts| == |s| && AllChars(ts)
  {
    seq(|s|, i requires 0 <= i < |s| => Ch(s[i]))
  }

  ghost predicate IsNamePart(s: string) {
    forall i :: 0 <= i < |s| ==> IsNameChar(s[i])
  }

  lemma {:induction false} TextsInTurn(a: seq<Token>, b: seq<Token>)
    ensures Once(a + b) == Once(a) + Once(b) && Each(a + b) == Each(a) + Each(b)
    decreases |a|
  {
    if a == [] {
      assert a + b == b;
    } else {
      assert (a + b)[0] == a[0] && (a + b)[1..] == a[1..] + b;
      TextsInTurn(a[1..], b);
    }
  }

  lemma {:induction false} CharsAre(ts: seq<Token>)
    requires AllChars(ts)
    ensures Once(ts) == Each(ts) && ts == Chars(Each(ts))
    decreases |ts|
  {
    if ts != [] {
      CharsAre(ts[1..]);
      assert ts == [ts[0]] + ts[1..];
    }
  }

  lemma {:induction false} TextOfChars(s: string)
    ensures Once(Chars(s)) == s && Each(Chars(s)) == s
    decreases |s|
  {
    if s != [] {
      assert Chars(s)[1..] == Chars(s[1..]);
      TextOfChars(s[1..]);
    }
  }

  // ---------------------------------------------------------------------------------------
  // Where a placeholder closes
  // ---------------------------------------------------------------------------------------

  /** The tokens up to the first closing brace. */
  function Close(ts: seq<Token>): (k: nat)
    ensures k <= |ts| && (ts != [] ==> k > 0)
  {
    if ts == [] then 0 else if ts[0] == Ch('}') then 1 else 1 + Close(ts[1..])
  }

  ghost predicate ClosesAt(ts: seq<Token>, k: nat) {
    0 < k <= |ts| && ts[k - 1] == Ch('}') && forall i :: 0 <= i < k ==> ts[i] != Ch('{')
  }

  /** In the text where every placeholder is filled in, a name and its brace are the tokens up to there. */
  lemma {:induction false} EachCloses(ts: seq<Token>, name: string, left: set<string>)
    requires AllFine(ts, left) && IsNamePart(name) && name + "}" <= Each(ts)
    ensures ClosesAt(ts, Close(ts)) && Each(ts[..Close(ts)]) == name + "}"
    decreases |ts|
  {
    var k := Close(ts);
    assert (name + "}")[|name|] == '}';
    if ts[0] == Ch('}') {
      assert (name + "}")[0] == Each(ts)[0] == '}';
      assert name == [] && ts[..1] == [ts[0]] && [ts[0]][1..] == [];
      assert Each([ts[0]]) == ['}'] + Each([]) == name + "}";
    } else {
      var head := if ts[0].Ch? then [ts[0].c] else ts[0].filled;
      HeadIsName(head, Each(ts[1..]), name);
      EachCloses(ts[1..], name[|head|..], left);
      assert ts[..k][1..] == ts[1..][..k - 1];
      assert forall i :: 0 < i < k ==> ts[i] == ts[1..][i - 1];
    }
  }

  lemma HeadIsName(head: string, rest: string, name: string)
    requires name + "}" <= head + rest && IsNamePart(name)
    requires forall i :: 0 <= i < |head| ==> head[i] != '}'
    ensures head <= name && IsNamePart(name[|head|..]) && name[|head|..] + "}" <= rest
  {
    assert (head + rest)[|name|] == (name + "}")[|name|] == '}';
    assert |head| <= |name|;
    assert forall i :: 0 <= i < |head| ==> head[i] == (head + rest)[i] == (name + "}")[i] == name[i];
    assert forall i :: 0 <= i <= |name| - |head| ==> rest[i] == (head + rest)[i + |head|] == (name + "}")[i + |head|];
  }

  /** In the other text they are characters, and stand in both. */
  lemma {:induction false} OnceCloses(ts: seq<Token>, name: string, left: set<string>)
    requires AllFine(ts, left) && IsNamePart(name) && name + "}" <= Once(ts)
    ensures Close(ts) == |name| + 1 && AllChars(ts[..|name| + 1]) && name + "}" <= Each(ts)
    decreases |ts|
  {
    var first := (name + "}")[0];
    assert Once(ts)[0] == first && (first == '}' || IsNameChar(first));
    assert ts[0].Ch?;
    if name != [] {
      assert (name + "}")[1..] == name[1..] + "}";
      OnceCloses(ts[1..], name[1..], left);
      assert name + "}" == [name[0]] + (name[1..] + "}");
      assert ts[..|name| + 1] == [ts[0]] + ts[1..][..|name|];
    }
  }

  // ---------------------------------------------------------------------------------------
  // What is kept stays
  // ---------------------------------------------------------------------------------------

  lemma CharPasses(c: char, rest: string, name: string, value: string)
    requires c != '{' || !(Hole(name) <= [c] + rest)
    ensures Replace([c] + rest, Hole(name), value) == [c] + Replace(rest, Hole(name), value)
    ensures Holds([c] + rest, Hole(name)) ==> Holds(rest, Hole(name))
  {
    var t := [c] + rest;
    assert t[0] == c && t[1..] == rest && Hole(name)[0] == '{';
  }

  /** A text that closes shares no placeholder with what comes after it. */
  lemma HoleIsInside(text: string, rest: string, name: string)
    requires text != [] && text[|text| - 1] == '}' && IsName(name) && Hole(name) <= text + rest
    ensures Hole(name) <= text
  {
    var hole := Hole(name);
    assert forall i :: 0 <= i < |hole| && i < |text| ==> hole[i] == (text + rest)[i] == text[i];
    assert forall i :: 0 <= i < |hole| - 1 ==> hole[i] != '}';
    assert |hole| <= |text|;
  }

  lemma {:induction false} KeptPasses(text: string, rest: string, name: string, value: string)
    requires IsName(name) && !Holds(text, Hole(name)) && (text != [] ==> text[|text| - 1] == '}')
    ensures Replace(text + rest, Hole(name), value) == text + Replace(rest, Hole(name), value)
    decreases |text|
  {
    if text == [] {
      assert text + rest == rest;
    } else {
      if Hole(name) <= text + rest {
        HoleIsInside(text, rest, name);
        assert false;
      }
      assert (text + rest)[1..] == text[1..] + rest;
      KeptPasses(text[1..], rest, name, value);
      assert text == [text[0]] + text[1..];
    }
  }

  lemma {:induction false} HoldsOneSide(text: string, rest: string, name: string)
    requires IsName(name) && (text != [] ==> text[|text| - 1] == '}') && Holds(text + rest, Hole(name))
    ensures Holds(text, Hole(name)) || Holds(rest, Hole(name))
    decreases |text|
  {
    if text == [] {
      assert text + rest == rest;
    } else if Hole(name) <= text + rest {
      HoleIsInside(text, rest, name);
    } else {
      assert (text + rest)[1..] == text[1..] + rest;
      HoldsOneSide(text[1..], rest, name);
    }
  }

  /** No placeholder begins among tokens without an opening brace. */
  lemma {:induction false} NoneBegins(ts: seq<Token>, left: set<string>, name: string)
    requires AllFine(ts, left) && name in left && IsName(name)
    requires forall i :: 0 <= i < |ts| ==> ts[i] != Ch('{')
    ensures !Holds(Once(ts), Hole(name))
    decreases |ts|
  {
    if ts != [] {
      NoneBegins(ts[1..], left, name);
      if ts[0].Ch? {
        CharPasses(ts[0].c, Once(ts[1..]), name, []);
      } else if Holds(ts[0].text + Once(ts[1..]), Hole(name)) {
        HoldsOneSide(ts[0].text, Once(ts[1..]), name);
        assert false;
      }
    }
  }

  /** An opening brace and the tokens up to where it closes. */
  ghost predicate Braced(ts: seq<Token>) {
    ts != [] && ts[0] == Ch('{') && Close(ts[1..]) == |ts| - 1 && ClosesAt(ts[1..], |ts| - 1)
  }

  lemma BracedEnds(ts: seq<Token>)
    requires Braced(ts)
    ensures var text := Once(ts); text[0] == '{' && text[|text| - 1] == '}'
  {
    var front, last := ts[..|ts| - 1], ts[|ts| - 1..];
    assert ts == front + last && last == [Ch('}')];
    assert last[1..] == [];
    TextsInTurn(front, last);
  }

  lemma {:induction false} CloseOfPrefix(ts: seq<Token>)
    ensures Close(ts[..Close(ts)]) == Close(ts)
    decreases |ts|
  {
    if ts != [] && ts[0] != Ch('}') {
      CloseOfPrefix(ts[1..]);
      assert ts[..Close(ts)][1..] == ts[1..][..Close(ts[1..])];
    }
  }

  lemma SameName(name: string, n: string)
    requires name + "}" == n + "}"
    ensures name == n
  {
    assert (name + "}")[..|name|] == name && (n + "}")[..|n|] == n;
  }

  /** After the opening brace. */
  lemma {:induction false} SameInside(ts: seq<Token>, name: string, n: string, left: set<string>)
    requires AllFine(ts, left) && IsNamePart(name) && IsNamePart(n) && ts != [] && Close(ts) == |ts|
    requires Each(ts) == name + "}" && n + "}" <= Once(ts)
    ensures n == name && AllChars(ts)
  {
    OnceCloses(ts, n, left);
    EachCloses(ts, n, left);
    assert ts[..|ts|] == ts;
    SameName(name, n);
  }

  lemma {:induction false} SameHole(ts: seq<Token>, name: string, n: string, left: set<string>)
    requires AllFine(ts, left) && Braced(ts) && IsName(name) && IsName(n) && Each(ts) == Hole(name) && Hole(n) <= Once(ts)
    ensures n == name && AllChars(ts)
  {
    var inner := ts[1..];
    assert Hole(n)[1..] == n + "}" && Once(ts)[1..] == Once(inner);
    assert Hole(name)[1..] == name + "}" && Each(ts)[1..] == Each(inner);
    SameInside(inner, name, n, left);
    assert ts == [ts[0]] + inner;
  }

  /** A placeholder that only one text has is shut in the other. */
  lemma {:induction false} BracedIsShut(ts: seq<Token>, name: string, left: set<string>)
    requires AllFine(ts, left) && Braced(ts) && IsName(name) && Each(ts) == Hole(name)
    requires (forall n :: n in left ==> IsName(n)) && (AllChars(ts) ==> name !in left)
    ensures Shut(Once(ts), left)
  {
    var inner := ts[1..];
    BracedEnds(ts);
    assert Once(ts)[1..] == Once(inner);
    forall n | n in left ensures !Holds(Once(ts), Hole(n)) {
      NoneBegins(inner, left, n);
      if Hole(n) <= Once(ts) {
        SameHole(ts, name, n, left);
      }
    }
  }

  // ---------------------------------------------------------------------------------------
  // One name
  // ---------------------------------------------------------------------------------------

  /** The tokens of a placeholder at the start of the text that has it. */
  function Width(ts: seq<Token>): (k: nat)
    requires ts != []
    ensures 0 < k <= |ts|
  {
    1 + Close(ts[1..])
  }

  /** A name filled in, in both texts or in the one only. */
  function Fill(ts: seq<Token>, name: string, value: string, both: bool): seq<Token>
    decreases |ts|
  {
    if ts == [] then []
    else if ts[0] == Ch('{') && Hole(name) <= Each(ts) then
      var k := Width(ts);
      (if both && AllChars(ts[..k]) then Chars(value) else [Kept(Once(ts[..k]), value)]) + Fill(ts[k..], name, value, both)
    else [ts[0]] + Fill(ts[1..], name, value, both)
  }

  predicate HasKept(ts: seq<Token>) {
    exists i :: 0 <= i < |ts| && ts[i].Kept?
  }

  lemma {:induction false} WidthIsBraced(ts: seq<Token>, name: string, left: set<string>)
    requires AllFine(ts, left) && IsName(name) && ts != [] && ts[0] == Ch('{') && Hole(name) <= Each(ts)
    ensures Braced(ts[..Width(ts)]) && Each(ts[..Width(ts)]) == Hole(name)
  {
    var k, inner := Width(ts), ts[1..];
    assert Each(ts)[1..] == Each(inner) && Hole(name)[1..] == name + "}";
    assert name + "}" <= Each(inner);
    EachCloses(inner, name, left);
    CloseOfPrefix(inner);
    assert ts[..k][1..] == inner[..k - 1];
    assert Each(ts[..k]) == ['{'] + (name + "}") == Hole(name);
  }

  /** What a name filled in makes of the tokens. */
  ghost predicate Becomes(ts: seq<Token>, us: seq<Token>, name: string, value: string, both: bool, left: set<string>) {
    && Each(us) == Replace(Each(ts), Hole(name), value)
    && Once(us) == (if both then Replace(Once(ts), Hole(name), value) else Once(ts))
    && AllFine(us, left)
    && (HasKept(ts) || (!both && Holds(Each(ts), Hole(name))) ==> HasKept(us))
  }

  /** A placeholder of both texts, filled in in both. */
  lemma {:induction false} FillHole(hole: seq<Token>, after: seq<Token>, name: string, value: string, left: set<string>, rest: seq<Token>)
    requires AllChars(hole) && Each(hole) == Hole(name)
    requires Becomes(after, rest, name, value, true, left)
    ensures Becomes(hole + after, Chars(value) + rest, name, value, true, left)
  {
    CharsAre(hole);
    TextOfChars(value);
    TextsInTurn(hole, after);
    TextsInTurn(Chars(value), rest);
    ReplaceHits(Each(after), name, value);
    ReplaceHits(Once(after), name, value);
    if HasKept(hole + after) {
      KeptAfter(hole, after);
      KeptThere(Chars(value), rest);
    }
  }

  lemma KeptAfter(a: seq<Token>, b: seq<Token>)
    requires HasKept(a + b) && AllChars(a)
    ensures HasKept(b)
  {
    var i :| 0 <= i < |a + b| && (a + b)[i].Kept?;
    assert b[i - |a|].Kept?;
  }

  lemma KeptThere(a: seq<Token>, b: seq<Token>)
    requires HasKept(b)
    ensures HasKept(a + b)
  {
    var i :| 0 <= i < |b| && b[i].Kept?;
    assert (a + b)[|a| + i].Kept?;
  }

  lemma KeptFirst(kept: Token, rest: seq<Token>)
    requires kept.Kept?
    ensures var us := [kept] + rest;
      HasKept(us) && Once(us) == kept.text + Once(rest) && Each(us) == kept.filled + Each(rest)
  {
    var us := [kept] + rest;
    assert us[0].Kept? && us[1..] == rest;
  }

  /** A placeholder of the one text, or not to be filled in in the other. */
  lemma {:induction false} FillKept(
    hole: seq<Token>, after: seq<Token>, name: string, value: string, both: bool, left: set<string>, rest: seq<Token>)
    requires AllFine(hole, left) && Braced(hole) && Each(hole) == Hole(name) && IsName(name) && NoBraces(value)
    requires (forall n :: n in left ==> IsName(n)) && both == (name in left) && !(both && AllChars(hole))
    requires Becomes(after, rest, name, value, both, left)
    ensures Becomes(hole + after, [Kept(Once(hole), value)] + rest, name, value, both, left)
  {
    var kept := Kept(Once(hole), value);
    BracedIsShut(hole, name, left);
    TextsInTurn(hole, after);
    KeptFirst(kept, rest);
    ReplaceHits(Each(after), name, value);
    if both {
      KeptPasses(kept.text, Once(after), name, value);
    }
  }

  lemma {:induction false} NotInPlain(s: string, rest: string, name: string)
    requires NoBraces(s)
    ensures Holds(s + rest, Hole(name)) ==> Holds(rest, Hole(name))
    decreases |s|
  {
    if s == [] {
      assert s + rest == rest;
    } else {
      NotInPlain(s[1..], rest, name);
      assert s + rest == [s[0]] + (s[1..] + rest);
      CharPasses(s[0], s[1..] + rest, name, []);
    }
  }

  lemma HoleOfBoth(ts: seq<Token>, name: string, left: set<string>)
    requires AllFine(ts, left) && IsName(name)
    ensures Hole(name) <= ['{'] + Once(ts) ==> Hole(name) <= ['{'] + Each(ts)
  {
    assert Hole(name) == ['{'] + (name + "}");
    if Hole(name) <= ['{'] + Once(ts) {
      assert (['{'] + Once(ts))[1..] == Once(ts) && Hole(name)[1..] == name + "}";
      OnceCloses(ts, name, left);
    }
  }

  /** At anything else. */
  lemma {:induction false} FillLater(ts: seq<Token>, name: string, value: string, both: bool, left: set<string>, rest: seq<Token>)
    requires AllFine(ts, left) && IsName(name) && both == (name in left)
    requires ts != [] && !(ts[0] == Ch('{') && Hole(name) <= Each(ts))
    requires Becomes(ts[1..], rest, name, value, both, left)
    ensures Becomes(ts, [ts[0]] + rest, name, value, both, left)
  {
    var x, after := ts[0], ts[1..];
    assert ([x] + rest)[1..] == rest && Fine(x, left);
    if x.Ch? {
      CharPasses(x.c, Each(after), name, value);
      if both {
        HoleOfBoth(after, name, left);
        CharPasses(x.c, Once(after), name, value);
      }
    } else {
      ReplaceSkips(x.filled, Each(after), name, value);
      NotInPlain(x.filled, Each(after), name);
      if both {
        KeptPasses(x.text, Once(after), name, value);
      }
    }
  }

  lemma {:induction false} FillBecomes(ts: seq<Token>, name: string, value: string, both: bool, left: set<string>)
    requires AllFine(ts, left) && IsName(name) && NoBraces(value) && (forall n :: n in left ==> IsName(n)) && both == (name in left)
    ensures Becomes(ts, Fill(ts, name, value, both), name, value, both, left)
    decreases |ts|
  {
    if ts != [] {
      if ts[0] == Ch('{') && Hole(name) <= Each(ts) {
        var k := Width(ts);
        var hole, after := ts[..k], ts[k..];
        WidthIsBraced(ts, name, left);
        FillBecomes(after, name, value, both, left);
        assert ts == hole + after;
        if both && AllChars(hole) {
          FillHole(hole, after, name, value, left, Fill(after, name, value, both));
        } else {
          FillKept(hole, after, name, value, both, left, Fill(after, name, value, both));
        }
      } else {
        FillBecomes(ts[1..], name, value, both, left);
        FillLater(ts, name, value, both, left, Fill(ts[1..], name, value, both));
      }
    }
  }

  // ---------------------------------------------------------------------------------------
  // All the names
  // ---------------------------------------------------------------------------------------

  /** The names that will have their first turn. */
  function Left(names: seq<string>, seen: set<string>): set<string> {
    set n | n in names && n !in seen
  }

  lemma LeftIsLess(names: seq<string>, seen: set<string>)
    requires names != []
    ensures Left(names[1..], seen + {names[0]}) == Left(names, seen) - {names[0]}
  {
    assert names == [names[0]] + names[1..];
  }

  /** Filled in name after name, the texts are those of some tokens, and something is kept if a name is found again. */
  lemma {:induction false} BothTexts(ts: seq<Token>, names: seq<string>, seen: set<string>, say: string -> string)
    returns (us: seq<Token>)
    requires Said(names, say) && AllFine(ts, Left(names, seen))
    ensures Each(us) == ReplaceAll(Each(ts), names, say) && Once(us) == ReplaceAll(Once(ts), Distinct(names, seen), say)
    ensures AllFine(us, {})
    ensures HasKept(ts) || FindsAgain(Each(ts), names, seen, say) ==> HasKept(us)
    decreases |names|
  {
    if names == [] {
      us := ts;
    } else {
      var name, value, both := names[0], say(names[0]), names[0] !in seen;
      var left := Left(names, seen);
      FillBecomes(ts, name, value, both, left);
      var next := Fill(ts, name, value, both);
      LeftIsLess(names, seen);
      us := BothTexts(next, names[1..], seen + {name}, say);
      if !both {
        assert seen + {name} == seen;
      } else {
        assert Distinct(names, seen)[1..] == Distinct(names[1..], seen + {name});
      }
    }
  }

  function Opening(s: string): nat {
    if s == [] then 0 else (if s[0] == '{' then 1 else 0) + Opening(s[1..])
  }

  lemma {:induction false} OpeningsAddUp(a: string, b: string)
    ensures Opening(a + b) == Opening(a) + Opening(b)
    decreases |a|
  {
    if a == [] {
      assert a + b == b;
    } else {
      assert (a + b)[0] == a[0] && (a + b)[1..] == a[1..] + b;
      OpeningsAddUp(a[1..], b);
    }
  }

  lemma {:induction false} PlainOpensNone(s: string)
    requires NoBraces(s)
    ensures Opening(s) == 0
    decreases |s|
  {
    if s != [] {
      PlainOpensNone(s[1..]);
    }
  }

  /** What is kept has a brace more in the one text. */
  lemma {:induction false} KeptOpensMore(ts: seq<Token>)
    requires AllFine(ts, {})
    ensures Opening(Once(ts)) >= Opening(Each(ts)) && (HasKept(ts) ==> Opening(Once(ts)) > Opening(Each(ts)))
    decreases |ts|
  {
    if ts != [] {
      KeptOpensMore(ts[1..]);
      var once := if ts[0].Ch? then [ts[0].c] else ts[0].text;
      var each := if ts[0].Ch? then [ts[0].c] else ts[0].filled;
      OpeningsAddUp(once, Once(ts[1..]));
      OpeningsAddUp(each, Each(ts[1..]));
      if ts[0].Kept? {
        PlainOpensNone(ts[0].filled);
      } else if HasKept(ts) {
        var i :| 0 <= i < |ts| && ts[i].Kept?;
        assert ts[1..][i - 1].Kept?;
      }
    }
  }

  /**
    With values free of braces, filling in every placeholder is filling in each name once, if and
    only if no name is found again.
  */
  lemma {:induction false} OnceIsEnoughExactly(t: string, names: seq<string>, say: string -> string)
    requires Said(names, say)
    ensures ReplaceAll(t, names, say) == ReplaceAll(t, Distinct(names, {}), say) <==> !FindsAgain(t, names, {}, say)
  {
    if FindsAgain(t, names, {}, say) {
      TextOfChars(t);
      var us := BothTexts(Chars(t), names, {}, say);
      KeptOpensMore(us);
    } else {
      OnceIsEnough(t, names, {}, say);
    }
  }

  /** None is in a template whose only braces are those of its placeholders. */
  lemma {:induction false} FlatFindsNone(t: string, names: seq<string>, say: string -> string)
    requires Flat(t) && Said(names, say)
    ensures !FindsAgain(t, names, {}, say)
  {
    var ps :| Plain(ps) && TextOf(ps) == t;
    SeenIsSkipped(ps, names, {}, say);
    OnceIsEnoughExactly(t, names, say);
  }
}
