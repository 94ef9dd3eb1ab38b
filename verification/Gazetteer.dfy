/**
  From the caller's words to an address of the list.

  Maps are searched in no particular order: where several keys would do, any may be taken.
*/
module Gazetteer {
  import opened Options
  import opened PlaceTable
  import EditDistance

  datatype PlaceInfo = PlaceInfo(address: Option<string>, point: string)

  datatype Address = Address(
    citySaid: string, city: string, street: Option<string>, streetSaid: Option<string>, number: Option<string>,
    place: Option<PlaceInfo>)

  datatype Lookup = NoCity | NoStreet(city: string, heard: string) | Found(address: Address)

  /** A locality found in the words: its number, the name said, and where. */
  datatype Hit = Hit(city: nat, said: string, start: nat, len: nat)

  function Join(words: seq<string>): string {
    if words == [] then [] else if |words| == 1 then words[0] else words[0] + " " + Join(words[1..])
  }

  predicate IsNumber(w: string) {
    forall i :: 0 <= i < |w| ==> '0' <= w[i] <= '9'
  }

  // ---------------------------------------------------------------------------------------
  // What an answer may be
  // ---------------------------------------------------------------------------------------

  /** The address is in the city: its street is one of the city's, or it is one of its places, as listed. */
  ghost predicate InCity(c: City, a: Address) {
    && a.city == c.name
    && (a.street.None? ==> a.place.None?)
    && (a.street.Some? && a.place.None? ==> a.street.value in c.streets)
    && (a.place.Some? ==>
          && a.street.Some?
          && exists p :: 0 <= p < |c.places| && c.places[p] == Place(a.street.value, a.place.value.address, a.place.value.point))
  }

  /** The address is in the list. */
  ghost predicate Listed(cities: seq<City>, a: Address) {
    exists ci :: 0 <= ci < |cities| && InCity(cities[ci], a)
  }

  ghost predicate Answers(cities: seq<City>, l: Lookup) {
    l.Found? ==> Listed(cities, l.address)
  }

  /** The address is in the rows: a locality, and a street or a place of that very locality. */
  ghost predicate InRows(
    ear: Ear, rows: seq<Row>, codes: seq<string>, keys: CityKeys, placeRows: seq<PlaceRow>, a: Address)
  {
    exists ci :: 0 <= ci < |codes| && RowsHave(ear, rows, codes[ci], keys, placeRows, ci, a)
  }

  ghost predicate RowsHave(
    ear: Ear, rows: seq<Row>, code: string, keys: CityKeys, placeRows: seq<PlaceRow>, ci: nat, a: Address)
  {
    && IsLocality(rows, code, a.city)
    && (a.street.Some? && a.place.None? ==> exists street :: IsStreet(rows, code, street, a.street.value))
    && (a.place.Some? ==>
          a.street.Some? && IsPlace(ear, keys, placeRows, ci, Place(a.street.value, a.place.value.address, a.place.value.point)))
  }

  lemma ListedIsInRows(
    ear: Ear, rows: seq<Row>, codes: seq<string>, ids: seq<seq<string>>, keys: CityKeys, placeRows: seq<PlaceRow>,
    cities: seq<City>, a: Address)
    requires |codes| == |ids| == |cities| && Listed(cities, a)
    requires forall i :: 0 <= i < |cities| ==> StreetsListed(ear, rows, codes[i], ids[i], cities[i])
    requires forall i :: 0 <= i < |cities| ==> PlacesListed(ear, keys, placeRows, i, cities[i])
    ensures InRows(ear, rows, codes, keys, placeRows, a)
  {
    var ci :| 0 <= ci < |cities| && InCity(cities[ci], a);
    var c := cities[ci];
    assert IsLocality(rows, codes[ci], a.city);
    if a.street.Some? && a.place.None? {
      var s :| 0 <= s < |c.streets| && c.streets[s] == a.street.value;
      assert IsStreet(rows, codes[ci], ids[ci][s], a.street.value);
    }
    if a.place.Some? {
      var p :| 0 <= p < |c.places| && c.places[p] == Place(a.street.value, a.place.value.address, a.place.value.point);
      assert IsPlace(ear, keys, placeRows, ci, c.places[p]);
    }
    assert RowsHave(ear, rows, codes[ci], keys, placeRows, ci, a);
  }

  // ---------------------------------------------------------------------------------------
  // Streets by their keys
  // ---------------------------------------------------------------------------------------

  /** Candidate `i` is the first that is a key. */
  ghost predicate FirstIn(keys: map<string, nat>, candidates: seq<string>, i: int) {
    0 <= i < |candidates| && candidates[i] in keys && forall j :: 0 <= j < i ==> candidates[j] !in keys
  }

  ghost predicate NoneIn(keys: map<string, nat>, candidates: seq<string>) {
    forall j :: 0 <= j < |candidates| ==> candidates[j] !in keys
  }

  /** The first candidate that is a key, exactly. */
  method ExactKey(keys: map<string, nat>, candidates: seq<string>) returns (at: Option<nat>)
    ensures at.Some? <==> exists i :: 0 <= i < |candidates| && candidates[i] in keys
    ensures at.Some? ==>
      at.value < |candidates| && candidates[at.value] in keys && forall j :: 0 <= j < at.value ==> candidates[j] !in keys
  {
    var i := 0;
    while i < |candidates|
      invariant i <= |candidates| && forall j :: 0 <= j < i ==> candidates[j] !in keys
    {
      if candidates[i] in keys {
        return Some(i);
      }
      i := i + 1;
    }
    return None;
  }

  /** The key is a small misspelling away from some candidate. */
  ghost predicate CloseTo(keys: map<string, nat>, candidates: seq<string>, k: string) {
    k in keys && exists i :: 0 <= i < |candidates| && EditDistance.CloseEnough(candidates[i], k)
  }

  /** A key close enough to the first candidate that has one. */
  method CloseKey(keys: map<string, nat>, candidates: seq<string>) returns (key: Option<string>)
    ensures key.Some? ==> CloseTo(keys, candidates, key.value)
    ensures key.None? ==> forall k :: !CloseTo(keys, candidates, k)
  {
    var i := 0;
    while i < |candidates|
      invariant i <= |candidates|
      invariant forall j, k :: 0 <= j < i && k in keys ==> !EditDistance.CloseEnough(candidates[j], k)
    {
      if k :| k in keys && EditDistance.CloseEnough(candidates[i], k) {
        return Some(k);
      }
      i := i + 1;
    }
    return None;
  }

  /** Some key fits, and every key that does leads to street `s`. */
  ghost predicate OnlyOne(keys: map<string, nat>, fits: string -> bool, s: int) {
    (exists k :: k in keys && fits(k)) && forall k :: k in keys && fits(k) ==> keys[k] == s
  }

  /** The one street whose keys fit, when only one does. */
  method OnlyStreet(keys: map<string, nat>, fits: string -> bool) returns (s: Option<nat>)
    ensures s.Some? <==> exists n :: OnlyOne(keys, fits, n)
    ensures s.Some? ==> OnlyOne(keys, fits, s.value)
  {
    if k :| k in keys && fits(k) {
      if forall other :: other in keys && fits(other) ==> keys[other] == keys[k] {
        assert OnlyOne(keys, fits, keys[k]);
        return Some(keys[k]);
      }
    }
    return None;
  }

  /** The words as the caller said them, and without a prefix letter on the first. */
  function Candidates(ear: Ear, words: seq<string>): (r: seq<string>)
    requires words != []
    ensures 1 <= |r| <= 2 && r[0] == Join(words)
  {
    [Join(words)] +
    if ear.strip(words[0]).Some? then [Join([ear.strip(words[0]).value] + words[1..])] else []
  }

  /** The words but those that name the locality. */
  function Rest(words: seq<string>, start: nat, len: nat): seq<string>
    requires start + len <= |words|
  {
    words[..start] + words[start + len..]
  }

  lemma RestOfAll(words: seq<string>)
    ensures Rest(words, |words|, 0) == words
  {
  }

  function FirstNumber(words: seq<string>): Option<string> {
    if words == [] then None else if IsNumber(words[0]) then Some(words[0]) else FirstNumber(words[1..])
  }

  const STREET_WORDS: set<string> := {"רחוב", "רח"}
  const KINDS: set<string> := {"מושב", "קיבוצ", "קבוצ", "העיר", "עיר", "יישוב", "ישוב"}

  function Without(words: seq<string>, drop: string -> bool): seq<string> {
    if words == [] then []
    else (if drop(words[0]) then [] else [words[0]]) + Without(words[1..], drop)
  }

  function StreetWords(rest: seq<string>): seq<string> {
    var named := Without(rest, IsNumber);
    var bare := if named != [] && named[0] in STREET_WORDS then named[1..] else named;
    Without(bare, w => w in KINDS)
  }

  // ---------------------------------------------------------------------------------------
  // Localities in the words
  // ---------------------------------------------------------------------------------------

  /** What `len` words from `start` on may be called. */
  function KeysAt(ear: Ear, words: seq<string>, start: nat, len: nat): (r: seq<string>) {
    if 1 <= len && start + len <= |words| then Candidates(ear, words[start..start + len]) else []
  }

  /** The words name the city exactly there. */
  ghost predicate Exact(ear: Ear, keys: CityKeys, words: seq<string>, h: Hit) {
    exists k :: k in KeysAt(ear, words, h.start, h.len) && k in keys && keys[k] == (h.city, h.said)
  }

  ghost predicate AllExact(ear: Ear, keys: CityKeys, words: seq<string>, hits: seq<Hit>) {
    forall i :: 0 <= i < |hits| ==> Exact(ear, keys, words, hits[i])
  }

  /** Every exact name at one place is among the hits. */
  ghost predicate AllAt(ear: Ear, keys: CityKeys, words: seq<string>, hits: seq<Hit>, start: nat, len: nat) {
    forall h: Hit :: h.start == start && h.len == len && Exact(ear, keys, words, h) ==> h in hits
  }

  /** Every exact name of one length, from `from` on. */
  ghost predicate AllOfLength(ear: Ear, keys: CityKeys, words: seq<string>, hits: seq<Hit>, from: nat, len: nat) {
    forall h: Hit :: h.start >= from && h.len == len && Exact(ear, keys, words, h) ==> h in hits
  }

  /** Every exact name of more than `len` words, and up to four. */
  ghost predicate AllLonger(ear: Ear, keys: CityKeys, words: seq<string>, hits: seq<Hit>, len: nat) {
    forall h: Hit :: len < h.len <= 4 && Exact(ear, keys, words, h) ==> h in hits
  }

  /** Longest first, then latest. */
  ghost predicate InOrder(hits: seq<Hit>) {
    forall i, j :: 0 <= i < j < |hits| ==>
      hits[i].len > hits[j].len || (hits[i].len == hits[j].len && hits[i].start >= hits[j].start)
  }

  /** All of them `len` words long, from `start` on or later. */
  ghost predicate From(hits: seq<Hit>, start: nat, len: nat) {
    forall i :: 0 <= i < |hits| ==> hits[i].len == len && hits[i].start >= start
  }

  /** The exact names at one place in the words. */
  method ExactAt(ear: Ear, keys: CityKeys, words: seq<string>, start: nat, len: nat) returns (hits: seq<Hit>)
    ensures AllExact(ear, keys, words, hits) && AllAt(ear, keys, words, hits, start, len)
    ensures forall i :: 0 <= i < |hits| ==> hits[i].start == start && hits[i].len == len
  {
    hits := [];
    var called := KeysAt(ear, words, start, len);
    var i := 0;
    while i < |called|
      invariant i <= |called| && AllExact(ear, keys, words, hits)
      invariant forall j :: 0 <= j < |hits| ==> hits[j].start == start && hits[j].len == len
      invariant forall j :: 0 <= j < i && called[j] in keys ==> Hit(keys[called[j]].0, keys[called[j]].1, start, len) in hits
    {
      if called[i] in keys {
        var h := Hit(keys[called[i]].0, keys[called[i]].1, start, len);
        assert Exact(ear, keys, words, h);
        hits := hits + [h];
      }
      i := i + 1;
    }
  }

  /** The exact hits of one length, the last position first. */
  method ExactOfLength(ear: Ear, keys: CityKeys, words: seq<string>, len: nat) returns (hits: seq<Hit>)
    requires 1 <= len <= |words|
    ensures AllExact(ear, keys, words, hits) && InOrder(hits) && From(hits, 0, len)
    ensures AllOfLength(ear, keys, words, hits, 0, len)
  {
    hits := [];
    var start: nat := |words| - len + 1;
    while start > 0
      invariant start <= |words| - len + 1 && AllExact(ear, keys, words, hits) && InOrder(hits) && From(hits, start, len)
      invariant AllOfLength(ear, keys, words, hits, start, len)
    {
      start := start - 1;
      var here := ExactAt(ear, keys, words, start, len);
      OneEarlier(ear, keys, words, hits, here, start, len);
      OrderedEarlier(hits, here, start, len);
      hits := hits + here;
    }
  }

  lemma OneEarlier(ear: Ear, keys: CityKeys, words: seq<string>, hits: seq<Hit>, here: seq<Hit>, start: nat, len: nat)
    requires AllOfLength(ear, keys, words, hits, start + 1, len) && AllAt(ear, keys, words, here, start, len)
    ensures AllOfLength(ear, keys, words, hits + here, start, len)
  {
  }

  lemma OrderedEarlier(a: seq<Hit>, b: seq<Hit>, start: nat, len: nat)
    requires InOrder(a) && From(a, start + 1, len) && forall i :: 0 <= i < |b| ==> b[i].start == start && b[i].len == len
    ensures InOrder(a + b) && From(a + b, start, len)
  {
  }

  lemma OneShorter(ear: Ear, keys: CityKeys, words: seq<string>, hits: seq<Hit>, some: seq<Hit>, len: nat)
    requires 1 <= len <= 4 && AllLonger(ear, keys, words, hits, len) && AllOfLength(ear, keys, words, some, 0, len)
    ensures AllLonger(ear, keys, words, hits + some, len - 1)
  {
  }

  lemma OrderedAfter(a: seq<Hit>, b: seq<Hit>, len: nat)
    requires InOrder(a) && InOrder(b) && From(b, 0, len) && forall i :: 0 <= i < |a| ==> a[i].len > len
    ensures InOrder(a + b)
  {
  }

  /** The exact hits of every length, four words first. */
  method ExactCities(ear: Ear, keys: CityKeys, words: seq<string>) returns (hits: seq<Hit>)
    ensures AllExact(ear, keys, words, hits) && InOrder(hits) && AllLonger(ear, keys, words, hits, 0)
  {
    hits := [];
    var len: nat := if |words| < 4 then |words| else 4;
    while len > 0
      invariant len <= |words| && len <= 4 && AllExact(ear, keys, words, hits) && InOrder(hits)
      invariant forall i :: 0 <= i < |hits| ==> hits[i].len > len
      invariant AllLonger(ear, keys, words, hits, len)
    {
      var some := ExactOfLength(ear, keys, words, len);
      OneShorter(ear, keys, words, hits, some, len);
      OrderedAfter(hits, some, len);
      hits := hits + some;
      len := len - 1;
    }
  }

  /** The one locality that `key` is a misspelling of, if there is exactly one. */
  method OnlyClose(keys: CityKeys, key: string) returns (found: Option<string>)
    ensures found.Some? ==> found.value in keys && EditDistance.CloseEnough(key, found.value)
    ensures found.Some? <==> exists k ::
      k in keys && EditDistance.CloseEnough(key, k) && forall o :: o in keys && EditDistance.CloseEnough(key, o) ==> o == k
  {
    if k :| k in keys && EditDistance.CloseEnough(key, k) {
      if forall o :: o in keys && EditDistance.CloseEnough(key, o) ==> o == k {
        return Some(k);
      }
    }
    return None;
  }

  /** The words misspell the city there, and no other. */
  ghost predicate Misspelt(ear: Ear, keys: CityKeys, words: seq<string>, h: Hit) {
    exists c, k ::
      && c in KeysAt(ear, words, h.start, h.len) && k in keys && EditDistance.CloseEnough(c, k)
      && keys[k] == (h.city, h.said)
  }

  method CloseAt(ear: Ear, keys: CityKeys, words: seq<string>, start: nat, len: nat) returns (hit: Option<Hit>)
    ensures hit.Some? ==> Misspelt(ear, keys, words, hit.value)
  {
    var called := KeysAt(ear, words, start, len);
    var i := 0;
    while i < |called|
    {
      var k := OnlyClose(keys, called[i]);
      if k.Some? {
        hit := Some(Hit(keys[k.value].0, keys[k.value].1, start, len));
        assert called[i] in KeysAt(ear, words, start, len);
        return;
      }
      i := i + 1;
    }
    return None;
  }

  method CloseCity(ear: Ear, keys: CityKeys, words: seq<string>) returns (hit: Option<Hit>)
    ensures hit.Some? ==> Misspelt(ear, keys, words, hit.value)
  {
    var len := if |words| < 3 then |words| else 3;
    while len > 0
    {
      var start := if |words| < len then 0 else |words| - len + 1;
      while start > 0
      {
        start := start - 1;
        hit := CloseAt(ear, keys, words, start, len);
        if hit.Some? {
          return;
        }
      }
      len := len - 1;
    }
    return None;
  }

  /** All the exact names of up to four words; where there is none, one misspelling at most. */
  ghost predicate CitiesFound(ear: Ear, keys: CityKeys, words: seq<string>, hits: seq<Hit>) {
    && InOrder(hits) && AllLonger(ear, keys, words, hits, 0)
    && (AllExact(ear, keys, words, hits) || (|hits| == 1 && Misspelt(ear, keys, words, hits[0]) && AllLonger(ear, keys, words, [], 0)))
  }

  /** Every locality named in the words; failing that, one that is misspelt. */
  method FindCities(ear: Ear, keys: CityKeys, words: seq<string>) returns (hits: seq<Hit>)
    ensures CitiesFound(ear, keys, words, hits)
  {
    hits := ExactCities(ear, keys, words);
    if hits != [] {
      return;
    }
    var hit := CloseCity(ear, keys, words);
    if hit.Some? {
      hits := [hit.value];
    }
  }

  /** A hit is inside the words and leads to a city in the list, under one of its names. */
  lemma HitsAreInBounds(ear: Ear, cities: seq<City>, keys: CityKeys, words: seq<string>, h: Hit)
    requires KeysLead(ear, cities, keys) && (Exact(ear, keys, words, h) || Misspelt(ear, keys, words, h))
    ensures h.city < |cities| && 1 <= h.len && h.start + h.len <= |words|
    ensures h.said in ear.aliases(cities[h.city].name) || h.said == cities[h.city].name
  {
  }

  // ---------------------------------------------------------------------------------------
  // Inside one city
  // ---------------------------------------------------------------------------------------

  /** The city's keys lead to its streets and places. */
  ghost predicate InBounds(c: City) {
    && (forall k :: k in c.streetKeys ==> c.streetKeys[k] < |c.streets| && k in c.streetWritten)
    && (forall k :: k in c.placeKeys ==> c.placeKeys[k] < |c.places|)
  }

  function StreetAt(c: City, said: string, number: Option<string>, s: nat): Address
    requires s < |c.streets|
  {
    Address(said, c.name, Some(c.streets[s]), None, number, None)
  }

  function PlaceAt(c: City, said: string, p: nat): Address
    requires p < |c.places|
  {
    var at := c.places[p];
    Address(said, c.name, Some(at.name), None, None, Some(PlaceInfo(at.address, at.point)))
  }

  lemma TheseAreInCity(c: City, said: string, number: Option<string>)
    ensures forall s :: 0 <= s < |c.streets| ==> InCity(c, StreetAt(c, said, number, s))
    ensures forall p :: 0 <= p < |c.places| ==> InCity(c, PlaceAt(c, said, p))
  {
  }

  function Letters(s: string): nat {
    if s == [] then 0 else Letters(s[1..]) + if s[0] == ' ' then 0 else 1
  }

  /** The words as a name of a street, else of a place, exactly. */
  method ExactlyInCity(c: City, said: string, number: Option<string>, candidates: seq<string>) returns (a: Option<Address>)
    requires InBounds(c)
    ensures a.Some? ==> InCity(c, a.value)
    ensures a.Some? <==> exists i ::
      0 <= i < |candidates| && (candidates[i] in c.streetKeys || (number.None? && candidates[i] in c.placeKeys))
    ensures forall i :: FirstIn(c.streetKeys, candidates, i) ==>
      a == Some(StreetAt(c, said, number, c.streetKeys[candidates[i]]).(streetSaid := Some(c.streetWritten[candidates[i]])))
    ensures forall i :: NoneIn(c.streetKeys, candidates) && number.None? && FirstIn(c.placeKeys, candidates, i) ==>
      a == Some(PlaceAt(c, said, c.placeKeys[candidates[i]]))
  {
    TheseAreInCity(c, said, number);
    var street := ExactKey(c.streetKeys, candidates);
    if street.Some? {
      var k := candidates[street.value];
      return Some(StreetAt(c, said, number, c.streetKeys[k]).(streetSaid := Some(c.streetWritten[k])));
    }
    if number.None? {
      var place := ExactKey(c.placeKeys, candidates);
      if place.Some? {
        return Some(PlaceAt(c, said, c.placeKeys[candidates[place.value]]));
      }
    }
    return None;
  }

  /** A small misspelling of a street, else of a place. */
  method NearlyInCity(c: City, said: string, number: Option<string>, candidates: seq<string>) returns (a: Option<Address>)
    requires InBounds(c)
    ensures a.Some? ==> InCity(c, a.value) && a.value.citySaid == said
    ensures a.Some? && a.value.place.None? ==> exists k :: CloseTo(c.streetKeys, candidates, k) && a.value == StreetAt(c, said, number, c.streetKeys[k])
    ensures a.Some? && a.value.place.Some? ==>
      && number.None? && (forall k :: !CloseTo(c.streetKeys, candidates, k))
      && exists k :: CloseTo(c.placeKeys, candidates, k) && a.value == PlaceAt(c, said, c.placeKeys[k])
    ensures a.None? ==>
      (forall k :: !CloseTo(c.streetKeys, candidates, k)) && (number.None? ==> forall k :: !CloseTo(c.placeKeys, candidates, k))
  {
    TheseAreInCity(c, said, number);
    var street := CloseKey(c.streetKeys, candidates);
    if street.Some? {
      return Some(StreetAt(c, said, number, c.streetKeys[street.value]));
    }
    if number.None? {
      var place := CloseKey(c.placeKeys, candidates);
      if place.Some? {
        return Some(PlaceAt(c, said, c.placeKeys[place.value]));
      }
    }
    return None;
  }

  /** The keys spelled as what was heard, and those an Ashkenazi speaker would say so. */
  function SpelledLike(ear: Ear, heard: string): string -> bool {
    k => ear.spelling(k) == ear.spelling(heard)
  }

  function SaidLike(ear: Ear, heard: string): string -> bool {
    k => ear.ashkenazi(k) == ear.ashkenazi(heard)
  }

  /** The one street that is spelled or sounds like the words. */
  method BySoundInCity(ear: Ear, c: City, said: string, number: Option<string>, heard: string) returns (a: Option<Address>)
    requires InBounds(c)
    ensures a.Some? ==> InCity(c, a.value) && a.value.citySaid == said && a.value.place.None?
    ensures a.Some? <==>
      || (Letters(ear.spelling(heard)) >= 3 && exists s :: OnlyOne(c.streetKeys, SpelledLike(ear, heard), s))
      || (|ear.ashkenazi(heard)| >= 4 && exists s :: OnlyOne(c.streetKeys, SaidLike(ear, heard), s))
    ensures a.Some? ==> exists s ::
      && 0 <= s < |c.streets| && a.value == StreetAt(c, said, number, s)
      && (|| OnlyOne(c.streetKeys, SpelledLike(ear, heard), s)
          || OnlyOne(c.streetKeys, SaidLike(ear, heard), s))
  {
    TheseAreInCity(c, said, number);
    if Letters(ear.spelling(heard)) >= 3 {
      var s := OnlyStreet(c.streetKeys, SpelledLike(ear, heard));
      if s.Some? {
        return Some(StreetAt(c, said, number, s.value));
      }
    }
    if |ear.ashkenazi(heard)| >= 4 {
      var s := OnlyStreet(c.streetKeys, SaidLike(ear, heard));
      if s.Some? {
        return Some(StreetAt(c, said, number, s.value));
      }
    }
    return None;
  }

  /** The words as anything in the city. */
  method LookInCity(ear: Ear, c: City, said: string, number: Option<string>, candidates: seq<string>) returns (a: Option<Address>)
    requires InBounds(c) && candidates != []
    ensures a.Some? ==> InCity(c, a.value)
    ensures candidates[0] in c.streetKeys ==>
      a == Some(StreetAt(c, said, number, c.streetKeys[candidates[0]]).(streetSaid := Some(c.streetWritten[candidates[0]])))
    ensures a.None? ==> forall i :: 0 <= i < |candidates| ==>
      candidates[i] !in c.streetKeys && (number.None? ==> candidates[i] !in c.placeKeys)
  {
    a := ExactlyInCity(c, said, number, candidates);
    if a.None? {
      a := NearlyInCity(c, said, number, candidates);
      if a.None? {
        a := BySoundInCity(ear, c, said, number, candidates[0]);
      }
    }
  }

  // ---------------------------------------------------------------------------------------
  // Another locality of the same sound
  // ---------------------------------------------------------------------------------------

  datatype Alike = Alike(far: nat, city: nat, street: nat)

  /** The two sounds are the same, or one insertion apart. */
  predicate SoundsLike(said: string, other: string) {
    var d := EditDistance.Dist(said, other);
    d == 0 || (d == 1 && |said| != |other|)
  }

  /** The city has one of the streets, under this number. */
  ghost predicate HasStreet(cities: seq<City>, streets: seq<string>, ci: nat, s: nat) {
    ci < |cities| && exists i :: 0 <= i < |streets| && streets[i] in cities[ci].streetKeys && cities[ci].streetKeys[streets[i]] == s
  }

  /** Some name of the locality sounds as far from what was said as the hit says, and close enough. */
  ghost predicate Heard(ear: Ear, keys: CityKeys, said: string, h: Alike) {
    exists k ::
      k in keys && keys[k].0 == h.city && SoundsLike(said, ear.sound(k)) && h.far == EditDistance.Dist(said, ear.sound(k))
  }

  /** The name is of another locality that sounds as said and has one of the streets. */
  ghost predicate Sounding(ear: Ear, cities: seq<City>, keys: CityKeys, not: nat, said: string, streets: seq<string>, k: string) {
    && k in keys && keys[k].0 != not && keys[k].0 < |cities| && SoundsLike(said, ear.sound(k))
    && exists i :: 0 <= i < |streets| && streets[i] in cities[keys[k].0].streetKeys
  }

  /** Hit `i` is closer than all others. */
  ghost predicate ClosestAt(hits: seq<Alike>, i: int) {
    0 <= i < |hits| && forall j :: 0 <= j < |hits| && j != i ==> hits[i].far < hits[j].far
  }

  /** The one hit that is closer than all others. */
  method ClosestAlike(hits: seq<Alike>) returns (r: Option<Alike>)
    ensures r.Some? <==> exists i :: ClosestAt(hits, i)
    ensures forall i :: r.Some? && ClosestAt(hits, i) ==> r.value == hits[i]
  {
    if hits == [] {
      return None;
    }
    var best, alone, i := 0, true, 1;
    while i < |hits|
      invariant 0 <= best < i <= |hits|
      invariant forall j :: 0 <= j < i ==> hits[best].far <= hits[j].far
      invariant alone <==> forall j :: 0 <= j < i && j != best ==> hits[best].far < hits[j].far
    {
      if hits[i].far < hits[best].far {
        best, alone := i, true;
      } else if hits[i].far == hits[best].far {
        alone := false;
      }
      i := i + 1;
    }
    assert alone ==> ClosestAt(hits, best);
    return if alone then Some(hits[best]) else None;
  }

  ghost predicate HitsCity(hits: seq<Alike>, ci: nat) {
    exists i :: 0 <= i < |hits| && hits[i].city == ci
  }

  /** The hit is another locality that sounds as said and has one of the streets under that number. */
  ghost predicate IsAlike(ear: Ear, cities: seq<City>, keys: CityKeys, not: nat, said: string, streets: seq<string>, h: Alike) {
    h.city != not && HasStreet(cities, streets, h.city, h.street) && Heard(ear, keys, said, h)
  }

  /** The hits are such localities, each once; with `left` empty, all of them. */
  ghost predicate AlikeOk(
    ear: Ear, cities: seq<City>, keys: CityKeys, not: nat, said: string, streets: seq<string>, left: set<string>, hits: seq<Alike>)
  {
    && (forall i :: 0 <= i < |hits| ==> IsAlike(ear, cities, keys, not, said, streets, hits[i]))
    && (forall i, j :: 0 <= i < j < |hits| ==> hits[i].city != hits[j].city)
    && (forall k :: k !in left && Sounding(ear, cities, keys, not, said, streets, k) ==> HitsCity(hits, keys[k].0))
  }

  lemma HitAdded(
    ear: Ear, cities: seq<City>, keys: CityKeys, not: nat, said: string, streets: seq<string>, left: set<string>, hits: seq<Alike>,
    k: string, h: Alike)
    requires AlikeOk(ear, cities, keys, not, said, streets, left, hits) && k in keys
    requires IsAlike(ear, cities, keys, not, said, streets, h) && h.city == keys[k].0 && !HitsCity(hits, h.city)
    ensures AlikeOk(ear, cities, keys, not, said, streets, left - {k}, hits + [h])
  {
    var more := hits + [h];
    assert more[|hits|] == h && forall i :: 0 <= i < |hits| ==> more[i] == hits[i];
    forall l | l !in left - {k} && Sounding(ear, cities, keys, not, said, streets, l) ensures HitsCity(more, keys[l].0) {
      if l != k {
        var i :| 0 <= i < |hits| && hits[i].city == keys[l].0;
        assert more[i].city == keys[l].0;
      }
    }
  }

  /** The localities other than `not`, read in any order, that sound as said and have the street. */
  method AlikeHits(ear: Ear, cities: seq<City>, keys: CityKeys, not: nat, said: string, streets: seq<string>) returns (hits: seq<Alike>)
    requires KeysLead(ear, cities, keys)
    ensures AlikeOk(ear, cities, keys, not, said, streets, {}, hits)
  {
    hits := [];
    var left := keys.Keys;
    while left != {}
      invariant left <= keys.Keys && AlikeOk(ear, cities, keys, not, said, streets, left, hits)
      decreases |left|
    {
      var k :| k in left;
      var hit := AlikeHit(ear, cities, keys, not, said, streets, k);
      if hit.Some? && !(exists i :: 0 <= i < |hits| && hits[i].city == hit.value.city) {
        HitAdded(ear, cities, keys, not, said, streets, left, hits, k, hit.value);
        hits := hits + [hit.value];
      }
      left := left - {k};
    }
  }

  /** What one name gives. */
  method AlikeHit(ear: Ear, cities: seq<City>, keys: CityKeys, not: nat, said: string, streets: seq<string>, k: string)
    returns (hit: Option<Alike>)
    requires KeysLead(ear, cities, keys) && k in keys
    ensures hit.Some? <==> Sounding(ear, cities, keys, not, said, streets, k)
    ensures hit.Some? ==> hit.value.city == keys[k].0 && IsAlike(ear, cities, keys, not, said, streets, hit.value)
  {
    var ci := keys[k].0;
    if ci == not || !SoundsLike(said, ear.sound(k)) {
      return None;
    }
    var at := ExactKey(cities[ci].streetKeys, streets);
    if at.None? {
      return None;
    }
    var s := cities[ci].streetKeys[streets[at.value]];
    assert HasStreet(cities, streets, ci, s);
    hit := Some(Alike(EditDistance.Dist(said, ear.sound(k)), ci, s));
    assert Heard(ear, keys, said, hit.value);
  }

  /** The one locality that sounds closest to the one said, of all that have the street. */
  method SoundAlike(ear: Ear, cities: seq<City>, keys: CityKeys, not: nat, said: string, streets: seq<string>)
    returns (r: Option<Alike>, ghost hits: seq<Alike>)
    requires KeysLead(ear, cities, keys)
    ensures var heard := ear.sound(ear.norm(said));
      if heard == [] then r.None?
      else
        && AlikeOk(ear, cities, keys, not, heard, streets, {}, hits)
        && (r.Some? <==> exists i :: ClosestAt(hits, i)) && (forall i :: r.Some? && ClosestAt(hits, i) ==> r.value == hits[i])
    ensures r.Some? ==> IsAlike(ear, cities, keys, not, ear.sound(ear.norm(said)), streets, r.value)
  {
    var heard := ear.sound(ear.norm(said));
    if heard == [] {
      return None, [];
    }
    var found := AlikeHits(ear, cities, keys, not, heard, streets);
    hits := found;
    r := ClosestAlike(found);
  }

  // ---------------------------------------------------------------------------------------
  // The whole words
  // ---------------------------------------------------------------------------------------

  /** The words say the city's own name again. */
  predicate SaysOwnName(ear: Ear, keys: CityKeys, ci: nat, words: seq<string>) {
    var named := Join(words);
    || (named in keys && keys[named].0 == ci)
    || (|words| == 1 && ear.strip(named).Some? && ear.strip(named).value in keys && keys[ear.strip(named).value].0 == ci)
  }

  ghost predicate ListOk(ear: Ear, cities: seq<City>, keys: CityKeys) {
    KeysLead(ear, cities, keys) && forall i :: 0 <= i < |cities| ==> InBounds(cities[i])
  }

  /** `l` is what the words say with the locality at `h`: the locality alone for its own name, a
      street whose key they are, or else an answer from the list. */
  ghost predicate Reads(ear: Ear, cities: seq<City>, keys: CityKeys, words: seq<string>, h: Hit, l: Lookup)
    requires h.city < |cities| && InBounds(cities[h.city]) && h.start + h.len <= |words|
  {
    var sw, c := StreetWords(Rest(words, h.start, h.len)), cities[h.city];
    && Answers(cities, l) && !l.NoCity?
    && (sw == [] || SaysOwnName(ear, keys, h.city, sw) ==> l.Found? && l.address.street.None? && l.address.city == c.name)
    && (sw != [] && !SaysOwnName(ear, keys, h.city, sw) && Join(sw) in c.streetKeys ==>
          && l.Found? && l.address.city == c.name && l.address.citySaid == h.said
          && l.address.street == Some(c.streets[c.streetKeys[Join(sw)]])
          && l.address.number == FirstNumber(Rest(words, h.start, h.len)))
  }

  /** The words read with the locality at `h`. */
  method ResolveIn(ear: Ear, cities: seq<City>, keys: CityKeys, words: seq<string>, h: Hit) returns (l: Lookup)
    requires ListOk(ear, cities, keys) && h.city < |cities| && h.start + h.len <= |words|
    ensures Reads(ear, cities, keys, words, h, l)
  {
    var c := cities[h.city];
    var rest := Rest(words, h.start, h.len);
    var number, sw := FirstNumber(rest), StreetWords(rest);
    if sw == [] || SaysOwnName(ear, keys, h.city, sw) {
      l := Found(Address(h.said, c.name, None, None, number, None));
      assert InCity(c, l.address);
      return;
    }
    var candidates := Candidates(ear, sw);
    var a := LookInCity(ear, c, h.said, number, candidates);
    if a.Some? {
      return Found(a.value);
    }
    l := Elsewhere(ear, cities, keys, h, number, candidates, Join(sw));
  }

  /** Not in the city: in the one that sounds like it, or not found. */
  method Elsewhere(
    ear: Ear, cities: seq<City>, keys: CityKeys, h: Hit, number: Option<string>, candidates: seq<string>, heard: string)
    returns (l: Lookup)
    requires ListOk(ear, cities, keys) && h.city < |cities|
    ensures Answers(cities, l) && (l.Found? || l == NoStreet(cities[h.city].name, heard))
  {
    var alike, _ := SoundAlike(ear, cities, keys, h.city, h.said, candidates);
    if alike.None? {
      return NoStreet(cities[h.city].name, heard);
    }
    var c := cities[alike.value.city];
    TheseAreInCity(c, c.name, number);
    l := Found(StreetAt(c, c.name, number, alike.value.street));
  }

  function Score(l: Lookup): nat {
    if l.Found? && l.address.street.Some? then 0 else if l.Found? then 1 else 2
  }

  /** The first of the readings with the least score. */
  ghost predicate Best(readings: seq<Lookup>, l: Lookup) {
    exists i ::
      && 0 <= i < |readings| && l == readings[i]
      && (forall j :: 0 <= j < i ==> Score(readings[j]) > Score(l))
      && (forall j :: i < j < |readings| ==> Score(readings[j]) >= Score(l))
  }

  lemma BestOfMore(readings: seq<Lookup>, l: Lookup, r: Lookup)
    requires readings == [] || Best(readings, l)
    ensures Best(readings + [r], if readings == [] || Score(r) < Score(l) then r else l)
  {
    var more := readings + [r];
    if readings == [] || Score(r) < Score(l) {
      assert more[|readings|] == r;
    } else {
      var i :| 0 <= i < |readings| && l == readings[i]
        && (forall j :: 0 <= j < i ==> Score(readings[j]) > Score(l))
        && (forall j :: i < j < |readings| ==> Score(readings[j]) >= Score(l));
      assert more[i] == l;
    }
  }

  /** The readings are those of the first localities found, one each. */
  ghost predicate AllRead(ear: Ear, cities: seq<City>, keys: CityKeys, words: seq<string>, hits: seq<Hit>, readings: seq<Lookup>) {
    && ListOk(ear, cities, keys) && |readings| <= |hits|
    && forall i :: 0 <= i < |readings| ==>
         && hits[i].city < |cities| && hits[i].start + hits[i].len <= |words|
         && Reads(ear, cities, keys, words, hits[i], readings[i])
  }

  lemma OneMoreRead(ear: Ear, cities: seq<City>, keys: CityKeys, words: seq<string>, hits: seq<Hit>, readings: seq<Lookup>, l: Lookup)
    requires AllRead(ear, cities, keys, words, hits, readings) && |readings| < |hits|
    requires var h := hits[|readings|];
      h.city < |cities| && h.start + h.len <= |words| && Reads(ear, cities, keys, words, h, l)
    ensures AllRead(ear, cities, keys, words, hits, readings + [l])
  {
  }

  /** One locality of those found. */
  method ReadAt(ear: Ear, cities: seq<City>, keys: CityKeys, words: seq<string>, hits: seq<Hit>, i: nat, ghost readings: seq<Lookup>)
    returns (l: Lookup)
    requires AllRead(ear, cities, keys, words, hits, readings) && i == |readings| < |hits|
    requires Exact(ear, keys, words, hits[|readings|]) || Misspelt(ear, keys, words, hits[|readings|])
    ensures AllRead(ear, cities, keys, words, hits, readings + [l]) && Answers(cities, l) && !l.NoCity?
  {
    var h := hits[i];
    HitsAreInBounds(ear, cities, keys, words, h);
    l := ResolveIn(ear, cities, keys, words, h);
    OneMoreRead(ear, cities, keys, words, hits, readings, l);
  }

  /** The best of the readings: one with a street, else with a locality; the first of those. */
  method ResolveWritten(ear: Ear, cities: seq<City>, keys: CityKeys, text: string)
    returns (l: Lookup, ghost hits: seq<Hit>, ghost readings: seq<Lookup>)
    requires ListOk(ear, cities, keys)
    ensures CitiesFound(ear, keys, ear.words(text), hits)
    ensures AllRead(ear, cities, keys, ear.words(text), hits, readings) && |readings| == |hits|
    ensures Answers(cities, l) && (if readings == [] then l.NoCity? else !l.NoCity? && Best(readings, l))
  {
    var words := ear.words(text);
    var found := FindCities(ear, keys, words);
    hits := found;
    l, readings := NoCity, [];
    var i := 0;
    while i < |found|
      invariant i <= |found| && Answers(cities, l) && |readings| == i && (i > 0 <==> !l.NoCity?)
      invariant AllRead(ear, cities, keys, words, found, readings) && (i > 0 ==> Best(readings, l))
    {
      var reading := ReadAt(ear, cities, keys, words, found, i, readings);
      BestOfMore(readings, l, reading);
      readings := readings + [reading];
      if i == 0 || Score(reading) < Score(l) {
        l := reading;
      }
      i := i + 1;
    }
  }

  ghost predicate AllStreets(ear: Ear, rows: seq<Row>, codes: seq<string>, ids: seq<seq<string>>, cities: seq<City>) {
    && |codes| == |ids| == |cities|
    && (forall i :: 0 <= i < |cities| ==> StreetsListed(ear, rows, codes[i], ids[i], cities[i]))
    && (forall i :: 0 <= i < |cities| ==> NamesKept(ear, rows, codes[i], ids[i], cities[i]))
  }

  ghost predicate AllPlaces(ear: Ear, keys: CityKeys, rows: seq<PlaceRow>, cities: seq<City>) {
    forall i :: 0 <= i < |cities| ==> PlacesListed(ear, keys, rows, i, cities[i])
  }

  /** Cities just read have their streets and no places. */
  lemma FreshIsListed(ear: Ear, rows: seq<Row>, codes: seq<string>, ids: seq<seq<string>>, cities: seq<City>)
    requires |codes| == |ids| == |cities|
    requires forall i :: 0 <= i < |cities| ==> CityListed(ear, rows, codes[i], ids[i], cities[i])
    ensures AllStreets(ear, rows, codes, ids, cities) && forall keys :: AllPlaces(ear, keys, [], cities)
  {
  }

  /** Places change nothing about streets, and nothing about the names of localities. */
  lemma StreetsAndNamesStay(
    ear: Ear, rows: seq<Row>, codes: seq<string>, ids: seq<seq<string>>, cities: seq<City>, keys: CityKeys, ci: nat, c: City)
    requires AllStreets(ear, rows, codes, ids, cities) && KeysLead(ear, cities, keys) && ci < |cities|
    requires c == cities[ci].(places := c.places, placeKeys := c.placeKeys)
    ensures AllStreets(ear, rows, codes, ids, cities[ci := c]) && KeysLead(ear, cities[ci := c], keys)
  {
  }

  lemma AllPlacesStay(ear: Ear, keys: CityKeys, rows: seq<PlaceRow>, row: PlaceRow, cities: seq<City>)
    requires AllPlaces(ear, keys, rows, cities)
    ensures AllPlaces(ear, keys, rows + [row], cities)
  {
    forall i | 0 <= i < |cities| ensures PlacesListed(ear, keys, rows + [row], i, cities[i]) {
      PlacesStayListed(ear, keys, rows, row, i, cities[i]);
    }
  }

  /** The city with the row's place. */
  method WithPlace(ear: Ear, keys: CityKeys, ghost rows: seq<PlaceRow>, c: City, ci: nat, row: PlaceRow) returns (r: City)
    requires PlacesListed(ear, keys, rows + [row], ci, c) && ear.norm(row.city) in keys && keys[ear.norm(row.city)].0 == ci
    ensures PlacesListed(ear, keys, rows + [row], ci, r)
    ensures r == c.(places := c.places + [Place(row.name, row.address, row.point)], placeKeys := r.placeKeys)
    ensures forall k :: k in c.placeKeys ==> k in r.placeKeys && r.placeKeys[k] == c.placeKeys[k]
  {
    var place := Place(row.name, row.address, row.point);
    assert IsPlaceRow(ear, keys, (rows + [row])[|rows|], ci, place);
    assert IsPlace(ear, keys, rows + [row], ci, place);
    r := AddPlaceKeys(ear, keys, c.(places := c.places + [place]), [row.name] + row.aliases, |c.places|);
    forall k | k in r.placeKeys ensures HasPlaceKey(ear, keys, rows + [row], ci, r.places[r.placeKeys[k]], k) {
      if k in c.placeKeys {
        assert HasPlaceKey(ear, keys, rows + [row], ci, c.places[c.placeKeys[k]], k);
      } else {
        assert (rows + [row])[|rows|] == row;
      }
    }
  }

  /** After `n` lines the rows are those before and the lines' own, `added` of them of a known locality. */
  ghost predicate ReadSoFar(
    ear: Ear, keys: CityKeys, before: seq<PlaceRow>, lines: seq<string>, n: nat, rows: seq<PlaceRow>, added: nat)
  {
    && n <= |lines| && rows == before + PlaceRowsOf(ear, lines[..n]) && added == Known(ear, keys, PlaceRowsOf(ear, lines[..n]))
  }

  lemma ReadNone(ear: Ear, keys: CityKeys, before: seq<PlaceRow>, lines: seq<string>)
    ensures ReadSoFar(ear, keys, before, lines, 0, before, 0)
  {
    assert lines[..0] == [] && before + [] == before;
  }

  function RowIn(ear: Ear, line: string): seq<PlaceRow> {
    var row := ParsePlace(ear, line);
    if row.Some? then [row.value] else []
  }

  lemma ReadOne(ear: Ear, keys: CityKeys, before: seq<PlaceRow>, lines: seq<string>, n: nat, rows: seq<PlaceRow>, added: nat)
    requires ReadSoFar(ear, keys, before, lines, n, rows, added) && n < |lines|
    ensures ReadSoFar(ear, keys, before, lines, n + 1, rows + RowIn(ear, lines[n]), added + Known(ear, keys, RowIn(ear, lines[n])))
  {
    OnePlaceMore(ear, lines, n);
    var row, read := ParsePlace(ear, lines[n]), PlaceRowsOf(ear, lines[..n]);
    if row.Some? {
      KnownOneMore(ear, keys, read, row.value);
      KnownOneMore(ear, keys, [], row.value);
      assert [] + [row.value] == RowIn(ear, lines[n]);
      assert before + read + [row.value] == before + (read + [row.value]);
    } else {
      assert rows + [] == rows;
    }
  }

  class Gazetteer {
    const ear: Ear
    var cities: seq<City>
    var cityKeys: CityKeys
    /** The rows read, and where each city and its streets come from. */
    ghost var rows: seq<Row>
    ghost var placeRows: seq<PlaceRow>
    ghost var codes: seq<string>
    ghost var ids: seq<seq<string>>

    ghost predicate Valid()
      reads this
    {
      && AllStreets(ear, rows, codes, ids, cities)
      && AllPlaces(ear, cityKeys, placeRows, cities)
      && KeysLead(ear, cities, cityKeys)
    }

    constructor FromTable(ear: Ear, lines: seq<string>)
      ensures Valid() && this.ear == ear && rows == RowsOf(ear, lines) && placeRows == []
      ensures NamesAreKeys(ear, cities, |cities|, cityKeys)
      ensures forall r :: r in rows ==> r.cityCode in codes
    {
      var cs, listed, streets := ReadStreets(ear, lines);
      FreshIsListed(ear, RowsOf(ear, lines), listed, streets, cs);
      var keys := ReadNames(ear, cs);
      this.ear, cities, cityKeys := ear, cs, keys;
      rows, placeRows, codes, ids := RowsOf(ear, lines), [], listed, streets;
    }

    // -------------------------------------------------------------------------------------
    // Places
    // -------------------------------------------------------------------------------------

    /** One row of places; whether its locality is in the list. */
    method AddPlace(row: PlaceRow) returns (added: bool)
      requires Valid()
      modifies this`cities, this`placeRows
      ensures Valid() && placeRows == old(placeRows) + [row] && |cities| == |old(cities)|
      ensures added <==> ear.norm(row.city) in cityKeys
      ensures !added ==> cities == old(cities)
      ensures added ==>
        var ci := cityKeys[ear.norm(row.city)].0;
        && cities[ci].places == old(cities)[ci].places + [Place(row.name, row.address, row.point)]
        && cities[ci].streets == old(cities)[ci].streets && cities[ci].streetKeys == old(cities)[ci].streetKeys
        && forall i :: 0 <= i < |cities| && i != ci ==> cities[i] == old(cities)[i]
    {
      AllPlacesStay(ear, cityKeys, placeRows, row, cities);
      added := ear.norm(row.city) in cityKeys;
      if added {
        var ci := cityKeys[ear.norm(row.city)].0;
        var d := WithPlace(ear, cityKeys, placeRows, cities[ci], ci, row);
        StreetsAndNamesStay(ear, rows, codes, ids, cities, cityKeys, ci, d);
        cities := cities[ci := d];
      }
      placeRows := placeRows + [row];
    }

    /** One line of the table; how many rows of a known locality it holds, one or none. */
    method AddLine(line: string) returns (added: nat)
      requires Valid()
      modifies this`cities, this`placeRows
      ensures Valid() && |cities| == |old(cities)|
      ensures placeRows == old(placeRows) + RowIn(ear, line) && added == Known(ear, cityKeys, RowIn(ear, line))
    {
      var row := ParsePlace(ear, line);
      added := 0;
      if row.Some? {
        KnownOneMore(ear, cityKeys, [], row.value);
        assert [] + [row.value] == RowIn(ear, line);
        var one := AddPlace(row.value);
        added := if one then 1 else 0;
      }
    }

    /** The rows of the table join those read before; how many were of a known locality. */
    method AddPlaces(lines: seq<string>) returns (added: nat)
      requires Valid()
      modifies this`cities, this`placeRows
      ensures Valid() && |cities| == |old(cities)|
      ensures placeRows == old(placeRows) + PlaceRowsOf(ear, lines)
      ensures added == Known(ear, cityKeys, PlaceRowsOf(ear, lines))
    {
      added := 0;
      var i := 0;
      ReadNone(ear, cityKeys, placeRows, lines);
      while i < |lines|
        invariant i <= |lines| && Valid() && |cities| == |old(cities)|
        invariant ReadSoFar(ear, cityKeys, old(placeRows), lines, i, placeRows, added)
      {
        ReadOne(ear, cityKeys, old(placeRows), lines, i, placeRows, added);
        var more := AddLine(lines[i]);
        added := added + more;
        i := i + 1;
      }
      assert lines[..i] == lines;
    }

    // -------------------------------------------------------------------------------------
    // Looking up
    // -------------------------------------------------------------------------------------

    lemma ValidIsOk()
      requires Valid()
      ensures ListOk(ear, cities, cityKeys)
    {
      forall i | 0 <= i < |cities| ensures InBounds(cities[i]) {
        assert StreetsListed(ear, rows, codes[i], ids[i], cities[i]) && PlacesListed(ear, cityKeys, placeRows, i, cities[i]);
      }
    }

    /** The words, without numbers and words such as "street", are a key of a street of the city. */
    ghost predicate NamesStreet(street: string, city: string)
      requires Valid()
      reads this
    {
      && ear.norm(city) in cityKeys && ear.words(street) != []
      && var ci, sw := cityKeys[ear.norm(city)].0, StreetWords(ear.words(street));
        sw != [] && !SaysOwnName(ear, cityKeys, ci, sw) && Join(sw) in cities[ci].streetKeys
    }

    /** A street of the city is the answer. */
    ghost predicate StreetFound(city: string, l: Lookup)
      requires Valid()
      reads this
    {
      && ear.norm(city) in cityKeys && l.Found? && l.address.street.Some?
    }

    /** Every name of a street in the rows is a key of its city, unless the row of the city's own name has it too. */
    lemma RowsAreKeys(ci: nat, i: nat)
      requires Valid() && ci < |cities| && i < |rows| && rows[i].cityCode == codes[ci]
      ensures var key := ear.norm(rows[i].streetName);
        || (key in cities[ci].streetKeys && HasKey(ear, rows, codes[ci], ids[ci][cities[ci].streetKeys[key]], key))
        || (|cities[ci].streets| > 30 && HasKey(ear, rows, codes[ci], OWN, key))
    {
      NameIsAmong(ear, rows, i);
      assert NamesKept(ear, rows, codes[ci], ids[ci], cities[ci]) && StreetsListed(ear, rows, codes[ci], ids[ci], cities[ci]);
    }

    /** So words that are such a name, asked for in its city, are answered with a street (see `ResolveWithin`). */
    lemma ListedIsNamed(street: string, city: string, i: nat)
      requires Valid() && i < |rows| && ear.norm(city) in cityKeys && ear.words(street) != []
      requires var ci := cityKeys[ear.norm(city)].0; ci < |codes| && rows[i].cityCode == codes[ci]
      requires var ci, sw := cityKeys[ear.norm(city)].0, StreetWords(ear.words(street));
        && sw != [] && !SaysOwnName(ear, cityKeys, ci, sw) && Join(sw) == ear.norm(rows[i].streetName)
        && (|cities[ci].streets| > 30 ==> !HasKey(ear, rows, codes[ci], OWN, Join(sw)))
      ensures NamesStreet(street, city)
    {
      RowsAreKeys(cityKeys[ear.norm(city)].0, i);
    }

    lemma AnswersAreInRows(l: Lookup)
      requires Valid() && Answers(cities, l)
      ensures l.Found? ==> InRows(ear, rows, codes, cityKeys, placeRows, l.address)
    {
      if l.Found? {
        ListedIsInRows(ear, rows, codes, ids, cityKeys, placeRows, cities, l.address);
      }
    }

    /** First the words as they are; if no street comes of it, once more with their numbers rewritten. */
    method Resolve(text: string) returns (l: Lookup)
      requires Valid()
      ensures Answers(cities, l) && (l.Found? ==> InRows(ear, rows, codes, cityKeys, placeRows, l.address))
      ensures (exists h: Hit :: h.len <= 4 && Exact(ear, cityKeys, ear.words(text), h)) ==> !l.NoCity?
    {
      ValidIsOk();
      ghost var hits, readings;
      l, hits, readings := ResolveWritten(ear, cities, cityKeys, text);
      if !(l.Found? && l.address.street.Some?) && ear.digits(text) != text {
        var again, _, _ := ResolveWritten(ear, cities, cityKeys, ear.digits(text));
        if again.Found? && again.address.street.Some? {
          l := again;
        }
      }
      AnswersAreInRows(l);
    }

    method WithinWritten(street: string, city: string) returns (r: Option<Lookup>)
      requires Valid()
      ensures r.Some? <==> ear.norm(city) in cityKeys && ear.words(street) != []
      ensures r.Some? ==> Answers(cities, r.value)
      ensures NamesStreet(street, city) ==> r.Some? && StreetFound(city, r.value)
    {
      var words := ear.words(street);
      if ear.norm(city) !in cityKeys || words == [] {
        return None;
      }
      ValidIsOk();
      var (ci, said) := cityKeys[ear.norm(city)];
      RestOfAll(words);
      var l := ResolveIn(ear, cities, cityKeys, words, Hit(ci, said, |words|, 0));
      r := Some(l);
    }

    /** The caller named the locality: only its own streets and places may answer. */
    method ResolveWithin(street: string, city: string) returns (r: Option<Lookup>)
      requires Valid()
      ensures r.Some? <==> ear.norm(city) in cityKeys && ear.words(street) != []
      ensures r.Some? ==> Answers(cities, r.value)
      ensures r.Some? && r.value.Found? ==> InRows(ear, rows, codes, cityKeys, placeRows, r.value.address)
      ensures NamesStreet(street, city) ==> r.Some? && StreetFound(city, r.value)
    {
      r := WithinWritten(street, city);
      if r.None? {
        return;
      }
      var first := r.value;
      var streeted := first.Found? && first.address.street.Some?;
      if !(streeted && first.address.number.Some?) && ear.digits(street) != street {
        var again := WithinWritten(ear.digits(street), city);
        if again.Some? && again.value.Found? && again.value.address.street.Some?
          && (again.value.address.number.Some? || !streeted)
        {
          r := again;
        }
      }
      AnswersAreInRows(r.value);
    }
  }
}
