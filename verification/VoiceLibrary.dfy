/**
  Rendering responses to speech, and the library of sentences recorded beforehand.

  How numbers are said and read is a parameter (`Tongue`).
*/
module VoiceLibrary {
  import opened Options
  import opened Templates
  import opened Refills

  datatype Gender = Masculine | Feminine

  datatype Tongue = Tongue(
    count: (int, Gender, string, string) -> string,
    number: (int, Gender) -> string,
    digits: int -> string,
    parse: string -> Option<int>,
    trim: string -> string)

  datatype Param =
    | Count(gender: Gender, singular: string, plural: string, lo: int, hi: int)
    | Number(gender: Gender, lo: int, hi: int)
    | Enum(values: map<string, string>)
    | Time
    | Text

  datatype Response = Response(
    variants: seq<string>, params: map<string, Param>, prefix: Option<string>, delivery: Option<string>)

  const NORMAL: string := "normal"

  /** The responses, and the deliveries: whether each is recorded beforehand. */
  datatype Voice = Voice(responses: map<string, Response>, deliveries: map<string, bool>) {
    /** A prefix has no prefix of its own. */
    ghost predicate Valid() {
      forall id :: id in responses && responses[id].prefix.Some? && responses[id].prefix.value in responses ==>
        responses[responses[id].prefix.value].prefix.None?
    }
  }

  function Own(r: Response): string {
    if r.delivery.Some? then r.delivery.value else NORMAL
  }

  // ---------------------------------------------------------------------------------------
  // Saying one value
  // ---------------------------------------------------------------------------------------

  /** A value before it is said; `Spoken` is one with words of its own. */
  datatype Raw = Int(n: int) | Words(t: string) | SlotInt(value: int) | SlotEnum(key: string) | Spoken(words: string)

  type Context = string -> Option<Raw>

  function AsInt(w: Tongue, raw: Raw): Option<int> {
    match raw
    case Int(n) => Some(n)
    case SlotInt(n) => Some(n)
    case Words(t) => w.parse(w.trim(t))
    case _ => None
  }

  function Key(w: Tongue, raw: Raw): string {
    match raw
    case SlotEnum(key) => key
    case Words(t) => t
    case Int(n) => w.digits(n)
    case SlotInt(n) => w.digits(n)
    case Spoken(words) => words
  }

  /** The words for a value, and whether they are recorded beforehand. */
  function Speak(w: Tongue, raw: Raw, param: Option<Param>): Option<(string, bool)> {
    match param
    case Some(Count(g, one, many, lo, hi)) =>
      var n := AsInt(w, raw); if n.None? then None else Some((w.count(n.value, g, one, many), lo <= n.value <= hi))
    case Some(Number(g, lo, hi)) =>
      var n := AsInt(w, raw); if n.None? then None else Some((w.number(n.value, g), lo <= n.value <= hi))
    case Some(Enum(values)) =>
      var key := Key(w, raw); if key in values then Some((values[key], true)) else Some((key, false))
    case _ => Some((Key(w, raw), false))
  }

  /** Everything a parameter may say that is recorded beforehand, when that is finite. */
  function Domain(w: Tongue, param: Param): Option<set<string>> {
    match param
    case Count(g, one, many, lo, hi) => Some(set n | lo <= n <= hi :: w.count(n, g, one, many))
    case Number(g, lo, hi) => Some(set n | lo <= n <= hi :: w.number(n, g))
    case Enum(values) => Some(values.Values)
    case _ => None
  }

  function DomainOf(w: Tongue, r: Response, name: string): Option<set<string>> {
    if name in r.params then Domain(w, r.params[name]) else None
  }

  function Say(w: Tongue, r: Response, ctx: Context, name: string): Option<(string, bool)> {
    if ctx(name).None? then None
    else Speak(w, ctx(name).value, if name in r.params then Some(r.params[name]) else None)
  }

  /** What is said as recorded beforehand is in the domain. */
  lemma SaidIsInDomain(w: Tongue, r: Response, ctx: Context, name: string)
    requires Say(w, r, ctx, name).Some? && Say(w, r, ctx, name).value.1
    ensures DomainOf(w, r, name).Some? && Say(w, r, ctx, name).value.0 in DomainOf(w, r, name).value
  {
    var raw, param := ctx(name).value, r.params[name];
    if param.Count? {
      var n := AsInt(w, raw).value;
      assert param.lo <= n <= param.hi;
    } else if param.Number? {
      var n := AsInt(w, raw).value;
      assert param.lo <= n <= param.hi;
    }
  }

  // ---------------------------------------------------------------------------------------
  // Rendering
  // ---------------------------------------------------------------------------------------

  datatype Origin = Static | Template | Dynamic

  datatype Segment = Segment(text: string, response: string, delivery: string, origin: Origin, prefix: bool)

  /** The rest of the names filled in; `None` when one has no value. */
  function FillFrom(w: Tongue, r: Response, ctx: Context, text: string, names: seq<string>, all: bool): Option<(string, bool)>
    decreases |names|
  {
    if names == [] then Some((text, all))
    else
      var said := Say(w, r, ctx, names[0]);
      if said.None? then None
      else FillFrom(w, r, ctx, Replace(text, Hole(names[0]), said.value.0), names[1..], all && said.value.1)
  }

  function Render(w: Tongue, r: Response, ctx: Context, template: string): Option<(string, Origin)> {
    var names := Placeholders(template);
    if names == [] then Some((template, Static))
    else
      var filled := FillFrom(w, r, ctx, template, names, true);
      if filled.None? then None else Some((filled.value.0, if filled.value.1 then Template else Dynamic))
  }

  method RenderVariant(w: Tongue, r: Response, ctx: Context, template: string) returns (rendered: Option<(string, Origin)>)
    ensures rendered == Render(w, r, ctx, template)
  {
    var names := Placeholders(template);
    if names == [] {
      return Some((template, Static));
    }
    var text, all, i := template, true, 0;
    while i < |names|
      invariant i <= |names|
      invariant FillFrom(w, r, ctx, text, names[i..], all) == FillFrom(w, r, ctx, template, names, true)
    {
      var said := Say(w, r, ctx, names[i]);
      assert names[i..][0] == names[i] && names[i..][1..] == names[i + 1..];
      if said.None? {
        return None;
      }
      text, all := Replace(text, Hole(names[i]), said.value.0), all && said.value.1;
      i := i + 1;
    }
    return Some((text, if all then Template else Dynamic));
  }

  /** The words for a name, if it has any. */
  function Sayer(w: Tongue, r: Response, ctx: Context): string -> string {
    name => if Say(w, r, ctx, name).Some? then Say(w, r, ctx, name).value.0 else ""
  }

  lemma {:induction false} FillIsReplace(w: Tongue, r: Response, ctx: Context, text: string, names: seq<string>, all: bool)
    requires FillFrom(w, r, ctx, text, names, all).Some?
    ensures FillFrom(w, r, ctx, text, names, all).value.0 == ReplaceAll(text, names, Sayer(w, r, ctx))
    ensures FillFrom(w, r, ctx, text, names, all).value.1 ==>
      all && forall i :: 0 <= i < |names| ==> Say(w, r, ctx, names[i]).Some? && Say(w, r, ctx, names[i]).value.1
    decreases |names|
  {
    if names != [] {
      var said := Say(w, r, ctx, names[0]).value;
      FillIsReplace(w, r, ctx, Replace(text, Hole(names[0]), said.0), names[1..], all && said.1);
      assert names == [names[0]] + names[1..];
    }
  }

  /** The delivery of a response, unless one that exists is asked for. */
  function DeliveryFor(v: Voice, r: Response, override: Option<string>): string {
    if override.Some? && override.value in v.deliveries then override.value else Own(r)
  }

  /** The segment is a variant of its response, rendered. */
  ghost predicate IsRendered(w: Tongue, v: Voice, ctx: Context, override: Option<string>, s: Segment) {
    && s.response in v.responses
    && var r := v.responses[s.response];
      && s.delivery == DeliveryFor(v, r, override)
      && exists i :: 0 <= i < |r.variants| && Render(w, r, ctx, r.variants[i]) == Some((s.text, s.origin))
  }

  /** Any of `n` variants but the last one said, where there is a choice. */
  method Choose(random: nat, n: nat, previous: Option<nat>) returns (i: nat)
    ensures n > 0 ==> i < n
    ensures n > 1 && previous.Some? ==> i != previous.value
  {
    if n <= 1 {
      return 0;
    }
    i := random % n;
    if previous == Some(i) {
      i := (i + 1) % n;
      assert previous.value + 1 < n ==> i == previous.value + 1;
    }
  }

  /** Some variant has all its values. */
  ghost predicate CanBeSaid(w: Tongue, r: Response, ctx: Context) {
    exists i :: 0 <= i < |r.variants| && Render(w, r, ctx, r.variants[i]).Some?
  }

  /** The variant `k` after the first, round and round. */
  function Around(first: nat, k: nat, n: nat): (i: nat)
    requires n > 0
    ensures i < n
  {
    (first + k) % n
  }

  lemma AllAround(first: nat, i: nat, n: nat) returns (k: nat)
    requires first < n && i < n
    ensures k < n && Around(first, k, n) == i
  {
    k := if i >= first then i - first else n - first + i;
  }

  /** The first index from `first` on, wrapping at the end, whose variant renders. */
  method FirstRendered(w: Tongue, r: Response, ctx: Context, first: nat) returns (index: Option<nat>)
    requires r.variants != [] ==> first < |r.variants|
    ensures index.Some? <==> CanBeSaid(w, r, ctx)
    ensures index.Some? ==> index.value < |r.variants| && Render(w, r, ctx, r.variants[index.value]).Some?
  {
    var n, offset := |r.variants|, 0;
    while offset < n
      invariant offset <= n
      invariant forall k :: 0 <= k < offset ==> Render(w, r, ctx, r.variants[Around(first, k, n)]).None?
    {
      var rendered := RenderVariant(w, r, ctx, r.variants[Around(first, offset, n)]);
      if rendered.Some? {
        return Some(Around(first, offset, n));
      }
      offset := offset + 1;
    }
    forall i | 0 <= i < n ensures Render(w, r, ctx, r.variants[i]).None? {
      var k := AllAround(first, i, n);
    }
    return None;
  }

  class Renderer {
    const w: Tongue
    const v: Voice
    var lastVariant: map<string, nat>

    constructor (w: Tongue, v: Voice)
      ensures this.w == w && this.v == v && lastVariant == map[]
    {
      this.w, this.v, lastVariant := w, v, map[];
    }

    /** Rendered from the first variant that can be, the chosen one before the others. */
    method RenderOne(id: string, ctx: Context, override: Option<string>, random: nat) returns (s: Option<Segment>)
      requires id in v.responses
      modifies this`lastVariant
      ensures s.Some? ==> IsRendered(w, v, ctx, override, s.value) && s.value.response == id
      ensures s.Some? <==> CanBeSaid(w, v.responses[id], ctx)
    {
      var r := v.responses[id];
      var first := Choose(random, |r.variants|, if id in lastVariant then Some(lastVariant[id]) else None);
      var index := FirstRendered(w, r, ctx, first);
      if index.None? {
        return None;
      }
      lastVariant := lastVariant[id := index.value];
      var rendered := RenderVariant(w, r, ctx, r.variants[index.value]);
      s := Some(Segment(rendered.value.0, id, DeliveryFor(v, r, override), rendered.value.1, false));
    }

    /** A response, after its prefix if that can be said. */
    method RenderResponse(id: string, ctx: Context, override: Option<string>, random: string -> nat) returns (plan: Option<seq<Segment>>)
      requires v.Valid()
      modifies this`lastVariant
      ensures plan.Some? ==> plan.value != [] && forall i :: 0 <= i < |plan.value| ==> IsRendered(w, v, ctx, override, plan.value[i])
      ensures plan.Some? ==> plan.value[|plan.value| - 1].response == id
      ensures plan.Some? <==> id in v.responses && CanBeSaid(w, v.responses[id], ctx)
      decreases if id in v.responses && v.responses[id].prefix.Some? then 1 else 0
    {
      if id !in v.responses {
        return None;
      }
      var r := v.responses[id];
      var before := [];
      if r.prefix.Some? && r.prefix.value in v.responses {
        var p := RenderResponse(r.prefix.value, ctx, override, random);
        if p.Some? {
          before := seq(|p.value|, i requires 0 <= i < |p.value| => p.value[i].(prefix := true));
        }
      }
      var one := RenderOne(id, ctx, override, random(id));
      if one.None? {
        return None;
      }
      return Some(before + [one.value]);
    }
  }

  // ---------------------------------------------------------------------------------------
  // The library
  // ---------------------------------------------------------------------------------------

  datatype Entry = Entry(response: string, delivery: string, text: string)

  /** Every text with every value of the name. */
  function ExpandOne(texts: set<string>, name: string, domain: set<string>): set<string> {
    set t, v | t in texts && v in domain :: Replace(t, Hole(name), v)
  }

  function Expand(w: Tongue, r: Response, texts: set<string>, names: seq<string>): set<string>
    requires forall i :: 0 <= i < |names| ==> DomainOf(w, r, names[i]).Some?
    decreases |names|
  {
    if names == [] then texts
    else Expand(w, r, ExpandOne(texts, names[0], DomainOf(w, r, names[0]).value), names[1..])
  }

  predicate Finite(w: Tongue, r: Response, names: seq<string>) {
    forall i :: 0 <= i < |names| ==> DomainOf(w, r, names[i]).Some?
  }

  /** The deliveries a response's fixed sentences are recorded in. */
  function Deliveries(v: Voice, r: Response): set<string> {
    {Own(r)} + set d | d in v.deliveries && v.deliveries[d]
  }

  /** What is recorded of one variant. */
  function EntriesOf(w: Tongue, v: Voice, id: string, r: Response, variant: string): set<Entry> {
    var names := Placeholders(variant);
    var each := Distinct(names, {});
    if names == [] then set d | d in Deliveries(v, r) :: Entry(id, d, variant)
    else if !Finite(w, r, each) then {}
    else set t | t in Expand(w, r, {variant}, each) :: Entry(id, Own(r), t)
  }

  ghost predicate IsEntry(w: Tongue, v: Voice, e: Entry) {
    && e.response in v.responses
    && var r := v.responses[e.response];
      exists i :: 0 <= i < |r.variants| && e in EntriesOf(w, v, e.response, r, r.variants[i])
  }

  /** Each name of a variant once, when all its domains are finite. */
  method Domains(w: Tongue, r: Response, names: seq<string>) returns (each: Option<seq<string>>)
    ensures each == if Finite(w, r, Distinct(names, {})) then Some(Distinct(names, {})) else None
  {
    var seen: set<string>, done: seq<string>, i := {}, [], 0;
    assert names[0..] == names;
    while i < |names|
      invariant i <= |names| && done + Distinct(names[i..], seen) == Distinct(names, {}) && Finite(w, r, done)
    {
      assert names[i..][0] == names[i] && names[i..][1..] == names[i + 1..];
      if names[i] !in seen {
        if DomainOf(w, r, names[i]).None? {
          assert Distinct(names, {})[|done|] == names[i];
          return None;
        }
        seen, done := seen + {names[i]}, done + [names[i]];
      }
      i := i + 1;
    }
    assert names[i..] == [] && done + [] == done;
    return Some(done);
  }

  method ExpandAll(w: Tongue, r: Response, variant: string, each: seq<string>) returns (texts: set<string>)
    requires Finite(w, r, each)
    ensures texts == Expand(w, r, {variant}, each)
  {
    texts := {variant};
    var i := 0;
    while i < |each|
      invariant i <= |each| && Expand(w, r, texts, each[i..]) == Expand(w, r, {variant}, each)
    {
      assert each[i..][0] == each[i] && each[i..][1..] == each[i + 1..];
      texts := ExpandOne(texts, each[i], DomainOf(w, r, each[i]).value);
      i := i + 1;
    }
  }

  method VariantEntries(w: Tongue, v: Voice, id: string, r: Response, variant: string) returns (out: set<Entry>)
    ensures out == EntriesOf(w, v, id, r, variant)
  {
    var names := Placeholders(variant);
    if names == [] {
      return set d | d in Deliveries(v, r) :: Entry(id, d, variant);
    }
    var each := Domains(w, r, names);
    if each.None? {
      return {};
    }
    var texts := ExpandAll(w, r, variant, each.value);
    out := set t | t in texts :: Entry(id, Own(r), t);
  }

  method ResponseEntries(w: Tongue, v: Voice, id: string) returns (out: set<Entry>)
    requires id in v.responses
    ensures forall e :: e in out <==> e.response == id && IsEntry(w, v, e)
  {
    var r := v.responses[id];
    out := {};
    var i := 0;
    while i < |r.variants|
      invariant i <= |r.variants|
      invariant forall e :: e in out <==> exists j :: 0 <= j < i && e in EntriesOf(w, v, id, r, r.variants[j])
    {
      var more := VariantEntries(w, v, id, r, r.variants[i]);
      out := out + more;
      i := i + 1;
    }
    assert forall e, j :: 0 <= j < |r.variants| && e in EntriesOf(w, v, id, r, r.variants[j]) ==> e.response == id;
  }

  /** Everything to record for a business, its responses taken in any order. */
  method LibraryEntries(w: Tongue, v: Voice) returns (out: set<Entry>)
    ensures forall e :: e in out <==> IsEntry(w, v, e)
  {
    out := {};
    var left := v.responses.Keys;
    while left != {}
      invariant left <= v.responses.Keys
      invariant forall e :: e in out <==> IsEntry(w, v, e) && e.response !in left
      decreases |left|
    {
      var id :| id in left;
      var more := ResponseEntries(w, v, id);
      out := out + more;
      left := left - {id};
    }
  }

  // ---------------------------------------------------------------------------------------
  // The library covers the renderer
  // ---------------------------------------------------------------------------------------

  lemma {:induction false} ReplacedIsExpanded(w: Tongue, r: Response, texts: set<string>, t: string, names: seq<string>, say: string -> string)
    requires t in texts && Finite(w, r, names)
    requires forall i :: 0 <= i < |names| ==> say(names[i]) in DomainOf(w, r, names[i]).value
    ensures ReplaceAll(t, names, say) in Expand(w, r, texts, names)
    decreases |names|
  {
    if names != [] {
      var domain := DomainOf(w, r, names[0]).value;
      assert say(names[0]) in domain;
      var next := Replace(t, Hole(names[0]), say(names[0]));
      assert next in ExpandOne(texts, names[0], domain);
      ReplacedIsExpanded(w, r, ExpandOne(texts, names[0], domain), next, names[1..], say);
    }
  }

  lemma {:induction false} DistinctAreAmong(names: seq<string>, seen: set<string>)
    ensures forall n :: n in Distinct(names, seen) ==> n in names
  {
    if names != [] {
      DistinctAreAmong(names[1..], if names[0] in seen then seen else seen + {names[0]});
    }
  }

  /** Filled in placeholder by placeholder, the template never holds again a name that was filled in. */
  ghost predicate Tame(w: Tongue, r: Response, ctx: Context, template: string) {
    !FindsAgain(template, Placeholders(template), {}, Sayer(w, r, ctx))
  }

  /** A template filled with values recorded beforehand is one of its expansions. */
  lemma FilledIsExpanded(w: Tongue, r: Response, ctx: Context, t: string)
    requires Tame(w, r, ctx, t)
    requires var filled := FillFrom(w, r, ctx, t, Placeholders(t), true); filled.Some? && filled.value.1
    ensures var each := Distinct(Placeholders(t), {});
      Finite(w, r, each) && FillFrom(w, r, ctx, t, Placeholders(t), true).value.0 in Expand(w, r, {t}, each)
  {
    var names, say := Placeholders(t), Sayer(w, r, ctx);
    var each := Distinct(names, {});
    FillIsReplace(w, r, ctx, t, names, true);
    OnceIsEnough(t, names, {}, say);
    DistinctAreAmong(names, {});
    forall k | 0 <= k < |each| ensures DomainOf(w, r, each[k]).Some? && say(each[k]) in DomainOf(w, r, each[k]).value {
      SaidAmong(w, r, ctx, names, each[k]);
    }
    ReplacedIsExpanded(w, r, {t}, t, each, say);
  }

  lemma SaidAmong(w: Tongue, r: Response, ctx: Context, names: seq<string>, name: string)
    requires name in names
    requires forall i :: 0 <= i < |names| ==> Say(w, r, ctx, names[i]).Some? && Say(w, r, ctx, names[i]).value.1
    ensures DomainOf(w, r, name).Some? && Sayer(w, r, ctx)(name) in DomainOf(w, r, name).value
  {
    SaidIsInDomain(w, r, ctx, name);
  }

  /** A variant rendered as recorded beforehand is recorded, in its own delivery. */
  lemma RenderedIsEntry(w: Tongue, v: Voice, id: string, r: Response, ctx: Context, t: string)
    requires Render(w, r, ctx, t).Some? && !Render(w, r, ctx, t).value.1.Dynamic? && Tame(w, r, ctx, t)
    ensures Entry(id, Own(r), Render(w, r, ctx, t).value.0) in EntriesOf(w, v, id, r, t)
  {
    if Placeholders(t) != [] {
      FilledIsExpanded(w, r, ctx, t);
    }
  }

  /** The variant the segment was rendered from is tame. */
  ghost predicate TameSegment(w: Tongue, v: Voice, ctx: Context, s: Segment)
    requires s.response in v.responses
  {
    var r := v.responses[s.response];
    exists i :: 0 <= i < |r.variants| && Render(w, r, ctx, r.variants[i]) == Some((s.text, s.origin)) && Tame(w, r, ctx, r.variants[i])
  }

  /** With no delivery asked for, every fixed sentence and every filled template is in the library. */
  lemma SegmentIsEntry(w: Tongue, v: Voice, ctx: Context, s: Segment)
    requires IsRendered(w, v, ctx, None, s) && !s.origin.Dynamic? && TameSegment(w, v, ctx, s)
    ensures IsEntry(w, v, Entry(s.response, s.delivery, s.text))
  {
    var r := v.responses[s.response];
    var i :| 0 <= i < |r.variants| && Render(w, r, ctx, r.variants[i]) == Some((s.text, s.origin)) && Tame(w, r, ctx, r.variants[i]);
    RenderedIsEntry(w, v, s.response, r, ctx, r.variants[i]);
  }

  // ---------------------------------------------------------------------------------------
  // Where it does not
  // ---------------------------------------------------------------------------------------

  /** Rendered as recorded beforehand, the template is recorded. */
  ghost predicate Recorded(w: Tongue, v: Voice, id: string, r: Response, ctx: Context, t: string) {
    var rendered := Render(w, r, ctx, t);
    rendered.Some? && !rendered.value.1.Dynamic? ==> Entry(id, Own(r), rendered.value.0) in EntriesOf(w, v, id, r, t)
  }

  lemma TameIsRecorded(w: Tongue, v: Voice, id: string, r: Response, ctx: Context, t: string)
    requires Tame(w, r, ctx, t)
    ensures Recorded(w, v, id, r, ctx, t)
  {
    var rendered := Render(w, r, ctx, t);
    if rendered.Some? && !rendered.value.1.Dynamic? {
      RenderedIsEntry(w, v, id, r, ctx, t);
    }
  }

  /** For every response and every value. */
  ghost predicate AlwaysRecorded(w: Tongue, v: Voice, t: string) {
    forall id, r, ctx :: Recorded(w, v, id, r, ctx, t)
  }

  /** All the names have a value recorded beforehand, so filling them in is recorded beforehand. */
  lemma {:induction false} FillFromSaid(w: Tongue, r: Response, ctx: Context, text: string, names: seq<string>)
    requires forall i :: 0 <= i < |names| ==> Say(w, r, ctx, names[i]).Some? && Say(w, r, ctx, names[i]).value.1
    ensures FillFrom(w, r, ctx, text, names, true) == Some((ReplaceAll(text, names, Sayer(w, r, ctx)), true))
    decreases |names|
  {
    if names != [] {
      FillFromSaid(w, r, ctx, Replace(text, Hole(names[0]), Say(w, r, ctx, names[0]).value.0), names[1..]);
    }
  }

  /** With one value a name there is one expansion. */
  lemma {:induction false} OneExpansion(w: Tongue, r: Response, t: string, names: seq<string>, say: string -> string)
    requires forall i :: 0 <= i < |names| ==> DomainOf(w, r, names[i]) == Some({say(names[i])})
    ensures Expand(w, r, {t}, names) == {ReplaceAll(t, names, say)}
    decreases |names|
  {
    if names != [] {
      var next := Replace(t, Hole(names[0]), say(names[0]));
      assert ExpandOne({t}, names[0], {say(names[0])}) == {next};
      OneExpansion(w, r, next, names[1..], say);
    }
  }

  /** A response of one variant, each of whose names can be said in one way. */
  function OneWay(t: string, say: string -> string): Response {
    Response([t], map n | n in Placeholders(t) :: Enum(map["" := say(n)]), None, None)
  }

  function OneKey(name: string): Option<Raw> {
    Some(SlotEnum(""))
  }

  lemma OneValue(value: string)
    ensures (map["" := value]).Values == {value}
  {
    var values := map["" := value];
    assert values[""] == value && values.Values == {value};
  }

  lemma {:induction false} SaidOneWay(w: Tongue, t: string, say: string -> string, name: string)
    requires name in Placeholders(t)
    ensures Say(w, OneWay(t, say), OneKey, name) == Some((say(name), true)) && DomainOf(w, OneWay(t, say), name) == Some({say(name)})
  {
    var r := OneWay(t, say);
    assert r.params[name] == Enum(map["" := say(name)]);
    OneValue(say(name));
  }

  lemma {:induction false} SameSaid(text: string, names: seq<string>, say: string -> string, say': string -> string)
    requires forall i :: 0 <= i < |names| ==> say(names[i]) == say'(names[i])
    ensures ReplaceAll(text, names, say) == ReplaceAll(text, names, say')
    decreases |names|
  {
    if names != [] {
      SameSaid(Replace(text, Hole(names[0]), say(names[0])), names[1..], say, say');
    }
  }

  /** What is rendered of it. */
  lemma {:induction false} OneWayRendered(w: Tongue, t: string, say: string -> string)
    requires Placeholders(t) != []
    ensures Render(w, OneWay(t, say), OneKey, t) == Some((ReplaceAll(t, Placeholders(t), say), Template))
  {
    var r, names := OneWay(t, say), Placeholders(t);
    forall i | 0 <= i < |names| ensures Say(w, r, OneKey, names[i]) == Some((say(names[i]), true)) {
      SaidOneWay(w, t, say, names[i]);
    }
    FillFromSaid(w, r, OneKey, t, names);
    SameSaid(t, names, Sayer(w, r, OneKey), say);
  }

  /** And what is recorded of it. */
  lemma {:induction false} OneWayRecorded(w: Tongue, v: Voice, id: string, t: string, say: string -> string)
    requires Placeholders(t) != []
    ensures EntriesOf(w, v, id, OneWay(t, say), t) == {Entry(id, NORMAL, ReplaceAll(t, Distinct(Placeholders(t), {}), say))}
  {
    var r, names := OneWay(t, say), Placeholders(t);
    var each := Distinct(names, {});
    DistinctAreAmong(names, {});
    forall i | 0 <= i < |each| ensures DomainOf(w, r, each[i]) == Some({say(each[i])}) {
      assert each[i] in names;
      SaidOneWay(w, t, say, each[i]);
    }
    OneExpansion(w, r, t, each, say);
    assert Finite(w, r, each);
  }

  lemma {:induction false} OneWayIsLost(w: Tongue, v: Voice, t: string, say: string -> string)
    requires Placeholders(t) != []
    requires ReplaceAll(t, Placeholders(t), say) != ReplaceAll(t, Distinct(Placeholders(t), {}), say)
    ensures !Recorded(w, v, "", OneWay(t, say), OneKey, t)
  {
    OneWayRendered(w, t, say);
    OneWayRecorded(w, v, "", t, say);
  }

  lemma {:induction false} RepeatedIsLost(w: Tongue, v: Voice, t: string)
    requires !NoRepeats(Placeholders(t))
    ensures exists say :: !Recorded(w, v, "", OneWay(t, say), OneKey, t)
  {
    var names, more := Placeholders(t), "+";
    var i, j :| 0 <= i < j < |names| && names[i] == names[j];
    CountsAnother(names, i);
    TwiceIsMore(t, names[i], more);
    OneWayIsLost(w, v, t, Marked(names[i], more));
  }

  /** Whatever its values, a template's renderings are all recorded if and only if it names nothing twice. */
  lemma {:induction false} RecordedExactly(w: Tongue, v: Voice, t: string)
    ensures AlwaysRecorded(w, v, t) <==> NoRepeats(Placeholders(t))
  {
    var names := Placeholders(t);
    if NoRepeats(names) {
      forall id, r, ctx ensures Recorded(w, v, id, r, ctx, t) {
        NoRepeatFindsNone(t, names, {}, Sayer(w, r, ctx));
        TameIsRecorded(w, v, id, r, ctx, t);
      }
    } else {
      RepeatedIsLost(w, v, t);
    }
  }

  /** For every response and all values without braces. */
  ghost predicate PlainlyRecorded(w: Tongue, v: Voice, t: string) {
    forall id, r, ctx :: Said(Placeholders(t), Sayer(w, r, ctx)) ==> Recorded(w, v, id, r, ctx, t)
  }

  /** A name is found again for no values without braces. */
  ghost predicate PlainlyTame(t: string) {
    forall say :: Said(Placeholders(t), say) ==> !FindsAgain(t, Placeholders(t), {}, say)
  }

  /** With one value for each name, free of braces, a template is recorded if and only if none of its names is found again. */
  lemma {:induction false} OneWayExactly(w: Tongue, v: Voice, id: string, t: string, say: string -> string)
    requires Said(Placeholders(t), say) && Placeholders(t) != []
    ensures Recorded(w, v, id, OneWay(t, say), OneKey, t) <==> !FindsAgain(t, Placeholders(t), {}, say)
  {
    OneWayRendered(w, t, say);
    OneWayRecorded(w, v, id, t, say);
    OnceIsEnoughExactly(t, Placeholders(t), say);
  }

  lemma {:induction false} OneWaySaid(w: Tongue, t: string, say: string -> string)
    requires Said(Placeholders(t), say)
    ensures Said(Placeholders(t), Sayer(w, OneWay(t, say), OneKey))
  {
    forall i | 0 <= i < |Placeholders(t)| ensures Sayer(w, OneWay(t, say), OneKey)(Placeholders(t)[i]) == say(Placeholders(t)[i]) {
      SaidOneWay(w, t, say, Placeholders(t)[i]);
    }
  }

  lemma {:induction false} FoundAgainIsLost(w: Tongue, v: Voice, t: string, say: string -> string) returns (r: Response, ctx: Context)
    requires Said(Placeholders(t), say) && FindsAgain(t, Placeholders(t), {}, say)
    ensures Said(Placeholders(t), Sayer(w, r, ctx)) && !Recorded(w, v, "", r, ctx, t)
  {
    r, ctx := OneWay(t, say), OneKey;
    OneWaySaid(w, t, say);
    OneWayExactly(w, v, "", t, say);
  }

  /** Whatever its values, if they have no braces: a template's renderings are all recorded if and
      only if none of its names is ever found again. */
  lemma {:induction false} PlainlyRecordedExactly(w: Tongue, v: Voice, t: string)
    ensures PlainlyRecorded(w, v, t) <==> PlainlyTame(t)
  {
    forall id, r, ctx | PlainlyTame(t) && Said(Placeholders(t), Sayer(w, r, ctx)) ensures Recorded(w, v, id, r, ctx, t) {
      TameIsRecorded(w, v, id, r, ctx, t);
    }
    forall say | Said(Placeholders(t), say) && FindsAgain(t, Placeholders(t), {}, say) ensures !PlainlyRecorded(w, v, t) {
      var r, ctx := FoundAgainIsLost(w, v, t, say);
    }
  }

  /**
    Nor do values without braces make every template safe. Between braces of its own, a name
    given twice whose value spells that name is filled in twice when it is rendered, and once
    when it is recorded: the sentence is told to be recorded beforehand, and is not.
  */
  lemma {:induction false} NestedIsNotRecorded(w: Tongue, v: Voice, id: string, r: Response, ctx: Context, name: string)
    requires IsName(name) && Say(w, r, ctx, name) == Some((name, true))
    ensures Render(w, r, ctx, Nested(name)) == Some((name + name, Template))
    ensures forall d :: Entry(id, d, name + name) !in EntriesOf(w, v, id, r, Nested(name))
  {
    var t, names, say := Nested(name), [name, name], Sayer(w, r, ctx);
    NestedNames(name);
    FillFromSaid(w, r, ctx, t, names);
    NamedTwice(t, name, say);
    NestedReplaced(name, name);
    NestedTwice(name);
    SaidIsInDomain(w, r, ctx, name);
    var domain := DomainOf(w, r, name).value;
    assert [name][1..] == [];
    assert Expand(w, r, {t}, [name]) == ExpandOne({t}, name, domain);
    forall value | value in domain ensures Replace(t, Hole(name), value) != name + name {
      NestedReplaced(name, value);
      assert ("{" + (value + ("}" + value)))[0] == '{' && IsNameChar((name + name)[0]);
    }
  }

  type Clip = seq<int>

  /** A clip's key tells its delivery and its text, but for the space around it. */
  function ClipKey(w: Tongue, delivery: string, text: string): (string, string) {
    (delivery, w.trim(text))
  }

  class Library {
    const w: Tongue
    var clips: map<(string, string), Clip>

    constructor (w: Tongue)
      ensures this.w == w && clips == map[]
    {
      this.w, clips := w, map[];
    }

    method Insert(delivery: string, text: string, audio: Clip)
      modifies this`clips
      ensures clips == old(clips)[ClipKey(w, delivery, text) := audio]
    {
      clips := clips[ClipKey(w, delivery, text) := audio];
    }

    /** Looked up under this delivery and then under `NORMAL`. */
    function Get(delivery: string, text: string): (clip: Option<Clip>)
      reads this`clips
      ensures clip.Some? ==> exists d :: (d == delivery || d == NORMAL) && ClipKey(w, d, text) in clips && clips[ClipKey(w, d, text)] == clip.value
      ensures clip.None? ==> ClipKey(w, delivery, text) !in clips && ClipKey(w, NORMAL, text) !in clips
    {
      if ClipKey(w, delivery, text) in clips then Some(clips[ClipKey(w, delivery, text)])
      else if delivery != NORMAL && ClipKey(w, NORMAL, text) in clips then Some(clips[ClipKey(w, NORMAL, text)])
      else None
    }

    /** Every entry was recorded. */
    ghost predicate Complete(v: Voice)
      reads this`clips
    {
      forall e :: IsEntry(w, v, e) ==> ClipKey(w, e.delivery, e.text) in clips
    }

    /** Recording everything makes the library complete. */
    method Build(v: Voice, record: Entry -> Clip)
      modifies this`clips
      ensures Complete(v)
    {
      var left := LibraryEntries(w, v);
      ghost var all := left;
      while left != {}
        invariant forall e :: e in all && e !in left ==> ClipKey(w, e.delivery, e.text) in clips
        decreases |left|
      {
        var e :| e in left;
        Insert(e.delivery, e.text, record(e));
        left := left - {e};
      }
    }

    /** A response of normal delivery is found under every delivery asked for. */
    lemma NormalIsFound(v: Voice, ctx: Context, override: Option<string>, s: Segment)
      requires Complete(v) && IsRendered(w, v, ctx, override, s) && !s.origin.Dynamic? && TameSegment(w, v, ctx, s)
      requires Own(v.responses[s.response]) == NORMAL
      ensures Get(s.delivery, s.text).Some?
    {
      SegmentIsEntry(w, v, ctx, s.(delivery := NORMAL));
      assert IsEntry(w, v, Entry(s.response, NORMAL, s.text));
    }
  }
}
