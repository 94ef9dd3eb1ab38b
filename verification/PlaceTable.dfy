/**
  The list of localities, streets and places, read from tables of tab-separated rows.

  How words are spelled, heard and split is a parameter (`Ear`); what is proved holds for
  every such reading.
*/
module PlaceTable {
  import opened Options

  datatype Ear = Ear(
    norm: string -> string,
    trim: string -> string,
    sound: string -> string,
    spelling: string -> string,
    ashkenazi: string -> string,
    /** What follows a prefix letter, for a word that begins with one. */
    strip: string -> Option<string>,
    words: string -> seq<string>,
    /** The text with its numbers rewritten. */
    digits: string -> string,
    /** The names of a locality, and the short names of an "upper" one. */
    aliases: string -> seq<string>,
    bases: string -> seq<string>)

  datatype Place = Place(name: string, address: Option<string>, point: string)

  datatype City = City(
    name: string,
    streets: seq<string>,
    /** From each normalised name to the index of its street. */
    streetKeys: map<string, nat>,
    streetWritten: map<string, string>,
    places: seq<Place>,
    placeKeys: map<string, nat>)

  type CityKeys = map<string, (nat, string)>

  function Split(s: string, c: char): (parts: seq<string>)
    ensures |parts| >= 1
  {
    if s == [] then [[]]
    else
      var rest := Split(s[1..], c);
      if s[0] == c then [[]] + rest else [[s[0]] + rest[0]] + rest[1..]
  }

  // ---------------------------------------------------------------------------------------
  // Rows
  // ---------------------------------------------------------------------------------------

  datatype Row = Row(cityCode: string, cityName: string, streetCode: string, streetName: string, official: bool)

  datatype PlaceRow = PlaceRow(city: string, name: string, aliases: seq<string>, address: Option<string>, point: string)

  predicate Skipped(ear: Ear, line: string) {
    (line != [] && line[0] == '#') || ear.trim(line) == []
  }

  function ParseRow(ear: Ear, line: string): Option<Row> {
    var cols := Split(line, '\t');
    if Skipped(ear, line) || |cols| != 5 then None
    else Some(Row(cols[0], cols[1], cols[2], cols[3], cols[4] == "official"))
  }

  function AddressOf(street: string, number: string): Option<string> {
    if street == [] then None else if number == [] then Some(street) else Some(street + " " + number)
  }

  function ParsePlace(ear: Ear, line: string): Option<PlaceRow> {
    var cols := Split(line, '\t');
    if Skipped(ear, line) || |cols| != 7 then None
    else
      Some(PlaceRow(cols[0], cols[1], Split(cols[2], '|'), AddressOf(ear.trim(cols[3]), ear.trim(cols[4])), cols[5] + "," + cols[6]))
  }

  // ---------------------------------------------------------------------------------------
  // What the list has to do with its rows
  // ---------------------------------------------------------------------------------------

  ghost predicate IsLocality(rows: seq<Row>, code: string, name: string) {
    exists i :: 0 <= i < |rows| && rows[i].cityCode == code && rows[i].cityName == name
  }

  /** A street of the locality has this name. */
  ghost predicate IsStreet(rows: seq<Row>, code: string, street: string, name: string) {
    exists i :: 0 <= i < |rows| && rows[i].cityCode == code && rows[i].streetCode == street && rows[i].streetName == name
  }

  /** A name of the street is written so, normalised. */
  ghost predicate HasKey(ear: Ear, rows: seq<Row>, code: string, street: string, key: string) {
    exists i ::
      0 <= i < |rows| && rows[i].cityCode == code && rows[i].streetCode == street && ear.norm(rows[i].streetName) == key
  }

  /** Every street and key of the city is in a row of its locality. `ids` are its streets' codes. */
  ghost predicate StreetsListed(ear: Ear, rows: seq<Row>, code: string, ids: seq<string>, c: City) {
    && IsLocality(rows, code, c.name)
    && |ids| == |c.streets|
    && (forall s :: 0 <= s < |ids| ==> IsStreet(rows, code, ids[s], c.streets[s]))
    && (forall k :: k in c.streetKeys ==> c.streetKeys[k] < |ids| && HasKey(ear, rows, code, ids[c.streetKeys[k]], k))
    && (forall k :: k in c.streetWritten ==> ear.norm(c.streetWritten[k]) == k)
    && c.streetKeys.Keys <= c.streetWritten.Keys
  }

  /** The normalised names in the rows of one code. */
  function NamesOf(ear: Ear, rows: seq<Row>, code: string): set<string> {
    if rows == [] then {}
    else
      var last := rows[|rows| - 1];
      NamesOf(ear, rows[..|rows| - 1], code) + if last.cityCode == code then {ear.norm(last.streetName)} else {}
  }

  lemma {:induction false} NamesOfOneMore(ear: Ear, rows: seq<Row>, row: Row, code: string)
    ensures NamesOf(ear, rows + [row], code) ==
      if row.cityCode == code then NamesOf(ear, rows, code) + {ear.norm(row.streetName)} else NamesOf(ear, rows, code)
  {
    assert (rows + [row])[..|rows|] == rows;
  }

  lemma {:induction false} NamesOfOthers(ear: Ear, rows: seq<Row>, code: string)
    requires forall i :: 0 <= i < |rows| ==> rows[i].cityCode != code
    ensures NamesOf(ear, rows, code) == {}
  {
    if rows != [] {
      NamesOfOthers(ear, rows[..|rows| - 1], code);
    }
  }

  lemma {:induction false} NameIsAmong(ear: Ear, rows: seq<Row>, i: nat)
    requires i < |rows|
    ensures ear.norm(rows[i].streetName) in NamesOf(ear, rows, rows[i].cityCode)
  {
    if i < |rows| - 1 {
      NameIsAmong(ear, rows[..|rows| - 1], i);
    }
  }

  /** Every name in the city's rows is a key; with more than thirty streets the city's own row has none,
      and its names may be missing. */
  ghost predicate NamesKept(ear: Ear, rows: seq<Row>, code: string, ids: seq<string>, c: City) {
    && (forall k :: k in NamesOf(ear, rows, code) ==> k in c.streetKeys || (|c.streets| > 30 && HasKey(ear, rows, code, OWN, k)))
    && (|c.streets| > 30 ==> forall k :: k in c.streetKeys && c.streetKeys[k] < |ids| ==> ids[c.streetKeys[k]] != OWN)
  }

  /** A row that puts the place in city `ci`. */
  ghost predicate IsPlaceRow(ear: Ear, keys: CityKeys, row: PlaceRow, ci: nat, p: Place) {
    && ear.norm(row.city) in keys && keys[ear.norm(row.city)].0 == ci
    && p == Place(row.name, row.address, row.point)
  }

  ghost predicate IsPlace(ear: Ear, keys: CityKeys, rows: seq<PlaceRow>, ci: nat, p: Place) {
    exists i :: 0 <= i < |rows| && IsPlaceRow(ear, keys, rows[i], ci, p)
  }

  /** A name or alias of the place is written so, normalised. */
  ghost predicate HasPlaceKey(ear: Ear, keys: CityKeys, rows: seq<PlaceRow>, ci: nat, p: Place, k: string) {
    exists i :: 0 <= i < |rows| && IsPlaceRow(ear, keys, rows[i], ci, p) && IsNameOf(ear, [rows[i].name] + rows[i].aliases, k)
  }

  ghost predicate IsNameOf(ear: Ear, names: seq<string>, k: string) {
    exists j :: 0 <= j < |names| && ear.norm(names[j]) == k
  }

  /** Every place is in a row for its city; no place key is a street key of the city or a locality's. */
  ghost predicate PlacesListed(ear: Ear, keys: CityKeys, rows: seq<PlaceRow>, ci: nat, c: City) {
    && (forall p :: 0 <= p < |c.places| ==> IsPlace(ear, keys, rows, ci, c.places[p]))
    && (forall k :: k in c.placeKeys ==> c.placeKeys[k] < |c.places| && k !in c.streetKeys && k !in keys)
    && (forall k :: k in c.placeKeys ==> HasPlaceKey(ear, keys, rows, ci, c.places[c.placeKeys[k]], k))
  }

  lemma StreetsStayListed(ear: Ear, rows: seq<Row>, row: Row, code: string, ids: seq<string>, c: City)
    requires StreetsListed(ear, rows, code, ids, c)
    ensures StreetsListed(ear, rows + [row], code, ids, c)
  {
    var more := rows + [row];
    assert forall i :: 0 <= i < |rows| ==> more[i] == rows[i];
    forall s | 0 <= s < |ids| ensures IsStreet(more, code, ids[s], c.streets[s]) {
      assert IsStreet(rows, code, ids[s], c.streets[s]);
    }
    forall k | k in c.streetKeys ensures HasKey(ear, more, code, ids[c.streetKeys[k]], k) {
      assert HasKey(ear, rows, code, ids[c.streetKeys[k]], k);
    }
  }

  lemma PlacesStayListed(ear: Ear, keys: CityKeys, rows: seq<PlaceRow>, row: PlaceRow, ci: nat, c: City)
    requires PlacesListed(ear, keys, rows, ci, c)
    ensures PlacesListed(ear, keys, rows + [row], ci, c)
  {
    var more := rows + [row];
    forall p | 0 <= p < |c.places| ensures IsPlace(ear, keys, more, ci, c.places[p]) {
      assert IsPlace(ear, keys, rows, ci, c.places[p]);
      var i :| 0 <= i < |rows| && IsPlaceRow(ear, keys, rows[i], ci, c.places[p]);
      assert more[i] == rows[i];
    }
    forall k | k in c.placeKeys ensures HasPlaceKey(ear, keys, more, ci, c.places[c.placeKeys[k]], k) {
      assert HasPlaceKey(ear, keys, rows, ci, c.places[c.placeKeys[k]], k);
      var i :| 0 <= i < |rows| && IsPlaceRow(ear, keys, rows[i], ci, c.places[c.placeKeys[k]])
        && IsNameOf(ear, [rows[i].name] + rows[i].aliases, k);
      assert more[i] == rows[i];
    }
  }

  // ---------------------------------------------------------------------------------------
  // Reading the streets
  // ---------------------------------------------------------------------------------------

  /** A city while its rows are read: its code, its streets by code, and the row of its own name. */
  datatype Draft = Draft(code: string, city: City, byCode: map<string, nat>, ids: seq<string>, own: Option<nat>)

  ghost predicate DraftOk(ear: Ear, rows: seq<Row>, d: Draft) {
    && StreetsListed(ear, rows, d.code, d.ids, d.city)
    && (forall s :: s in d.byCode ==> d.byCode[s] < |d.ids| && d.ids[d.byCode[s]] == s)
    && (forall i :: 0 <= i < |d.ids| ==> d.ids[i] in d.byCode && d.byCode[d.ids[i]] == i)
    && d.city.places == [] && d.city.placeKeys == map[]
  }

  const OWN: string := "9000"

  /** Every name in the city's rows is a key. */
  ghost predicate AllKeys(ear: Ear, rows: seq<Row>, d: Draft) {
    NamesOf(ear, rows, d.code) <= d.city.streetKeys.Keys
  }

  /** The street of the city's own row is on record, when there is one. */
  ghost predicate OwnOk(d: Draft) {
    && (OWN in d.byCode <==> d.own.Some?)
    && (d.own.Some? ==> d.own.value < |d.ids| && d.ids[d.own.value] == OWN)
  }

  /** The street of the row, new or known. */
  method StreetOf(d: Draft, row: Row) returns (r: Draft, s: nat)
    requires |d.ids| == |d.city.streets|
    requires forall s :: s in d.byCode ==> d.byCode[s] < |d.ids| && d.ids[d.byCode[s]] == s
    ensures s < |r.ids| && r.ids[s] == row.streetCode && row.streetCode in r.byCode && r.byCode[row.streetCode] == s
    ensures if row.streetCode in d.byCode then r == d
      else r == d.(byCode := d.byCode[row.streetCode := |d.ids|], ids := d.ids + [row.streetCode],
                   city := d.city.(streets := d.city.streets + [row.streetName]))
  {
    if row.streetCode in d.byCode {
      return d, d.byCode[row.streetCode];
    }
    s := |d.city.streets|;
    r := d.(byCode := d.byCode[row.streetCode := s], ids := d.ids + [row.streetCode],
            city := d.city.(streets := d.city.streets + [row.streetName]));
  }

  lemma StreetAdded(ear: Ear, rows: seq<Row>, row: Row, d: Draft, r: Draft)
    requires DraftOk(ear, rows, d) && d.code == row.cityCode && row.streetCode !in d.byCode
    requires r == d.(byCode := d.byCode[row.streetCode := |d.ids|], ids := d.ids + [row.streetCode],
                     city := d.city.(streets := d.city.streets + [row.streetName]))
    ensures DraftOk(ear, rows + [row], r)
  {
    StreetsStayListed(ear, rows, row, d.code, d.ids, d.city);
    var more := rows + [row];
    assert more[|rows|] == row;
    forall s | 0 <= s < |r.ids| ensures IsStreet(more, d.code, r.ids[s], r.city.streets[s]) {
      assert s < |d.ids| ==> IsStreet(more, d.code, d.ids[s], d.city.streets[s]);
    }
    forall k | k in d.city.streetKeys ensures HasKey(ear, more, d.code, r.ids[r.city.streetKeys[k]], k) {
      assert HasKey(ear, more, d.code, d.ids[d.city.streetKeys[k]], k);
    }
  }

  /** One row of a city. */
  method AddStreet(ear: Ear, ghost rows: seq<Row>, d: Draft, row: Row) returns (r: Draft)
    requires DraftOk(ear, rows, d) && d.code == row.cityCode && OwnOk(d) && AllKeys(ear, rows, d)
    ensures DraftOk(ear, rows + [row], r) && r.code == d.code && OwnOk(r) && AllKeys(ear, rows + [row], r)
    ensures row.streetCode in r.byCode && (row.official ==> r.city.streets[r.byCode[row.streetCode]] == row.streetName)
    ensures ear.norm(row.streetName) in r.city.streetKeys
    ensures forall k :: k in d.city.streetKeys ==> k in r.city.streetKeys && r.city.streetKeys[k] == d.city.streetKeys[k]
  {
    var s;
    r, s := StreetOf(d, row);
    if row.streetCode in d.byCode {
      StreetsStayListed(ear, rows, row, d.code, d.ids, d.city);
    } else {
      StreetAdded(ear, rows, row, d, r);
    }
    r := Written(ear, rows, r, row, s);
    KeysGrow(ear, rows, row, d, r);
  }

  lemma KeysGrow(ear: Ear, rows: seq<Row>, row: Row, d: Draft, r: Draft)
    requires AllKeys(ear, rows, d) && r.code == d.code && ear.norm(row.streetName) in r.city.streetKeys
    requires forall k :: k in d.city.streetKeys ==> k in r.city.streetKeys
    ensures AllKeys(ear, rows + [row], r)
  {
    NamesOfOneMore(ear, rows, row, d.code);
  }

  lemma OfficialKeeps(ear: Ear, rows: seq<Row>, code: string, ids: seq<string>, c: City, s: nat, name: string)
    requires StreetsListed(ear, rows, code, ids, c) && s < |ids| && IsStreet(rows, code, ids[s], name)
    ensures StreetsListed(ear, rows, code, ids, c.(streets := c.streets[s := name]))
  {
  }

  lemma KeyKeeps(ear: Ear, rows: seq<Row>, code: string, ids: seq<string>, c: City, s: nat, key: string)
    requires StreetsListed(ear, rows, code, ids, c) && s < |ids| && HasKey(ear, rows, code, ids[s], key)
    requires key in c.streetWritten
    ensures StreetsListed(ear, rows, code, ids, c.(streetKeys := c.streetKeys[key := s]))
  {
  }

  lemma WrittenKeeps(ear: Ear, rows: seq<Row>, code: string, ids: seq<string>, c: City, name: string)
    requires StreetsListed(ear, rows, code, ids, c)
    ensures StreetsListed(ear, rows, code, ids, c.(streetWritten := c.streetWritten[ear.norm(name) := name]))
  {
  }

  /** The row's name for a street already there. */
  method Written(ear: Ear, ghost rows: seq<Row>, d: Draft, row: Row, s: nat) returns (r: Draft)
    requires DraftOk(ear, rows + [row], d) && d.code == row.cityCode && s < |d.ids| && d.ids[s] == row.streetCode
    requires row.streetCode == OWN || OwnOk(d)
    ensures DraftOk(ear, rows + [row], r) && r.code == d.code && r.byCode == d.byCode && r.ids == d.ids && OwnOk(r)
    ensures r.city.name == d.city.name && (row.official ==> r.city.streets[s] == row.streetName)
    ensures ear.norm(row.streetName) in r.city.streetKeys
    ensures forall k :: k in d.city.streetKeys ==> k in r.city.streetKeys && r.city.streetKeys[k] == d.city.streetKeys[k]
  {
    ghost var more := rows + [row];
    assert more[|rows|] == row;
    var c, key := d.city, ear.norm(row.streetName);
    if row.official {
      assert IsStreet(more, d.code, d.ids[s], row.streetName);
      OfficialKeeps(ear, more, d.code, d.ids, c, s, row.streetName);
      c := c.(streets := c.streets[s := row.streetName]);
    }
    if key !in c.streetWritten {
      WrittenKeeps(ear, more, d.code, d.ids, c, row.streetName);
      c := c.(streetWritten := c.streetWritten[key := row.streetName]);
    }
    if key !in c.streetKeys {
      assert HasKey(ear, more, d.code, d.ids[s], key);
      KeyKeeps(ear, more, d.code, d.ids, c, s, key);
      c := c.(streetKeys := c.streetKeys[key := s]);
    }
    r := d.(city := c, own := if row.streetCode == OWN then Some(s) else d.own);
  }

  ghost predicate Kept(ear: Ear, rows: seq<Row>, d: Draft) {
    DraftOk(ear, rows, d) && OwnOk(d) && AllKeys(ear, rows, d)
  }

  ghost function Codes(drafts: seq<Draft>): seq<string> {
    seq(|drafts|, i requires 0 <= i < |drafts| => drafts[i].code)
  }

  ghost predicate AllKept(ear: Ear, rows: seq<Row>, drafts: seq<Draft>) {
    forall i :: 0 <= i < |drafts| ==> Kept(ear, rows, drafts[i])
  }

  /** Each code has its index. */
  ghost predicate Indexed(codes: seq<string>, byCode: map<string, nat>) {
    && (forall i :: 0 <= i < |codes| ==> codes[i] in byCode && byCode[codes[i]] == i)
    && (forall c :: c in byCode ==> byCode[c] < |codes| && codes[byCode[c]] == c)
  }

  /** So has every row's. */
  ghost predicate CodesRead(rows: seq<Row>, codes: seq<string>, byCode: map<string, nat>) {
    Indexed(codes, byCode) && forall r :: r in rows ==> r.cityCode in byCode
  }

  /** The cities' drafts, one for each code, and every row's code among them. */
  ghost predicate RowsRead(ear: Ear, rows: seq<Row>, drafts: seq<Draft>, byCode: map<string, nat>) {
    AllKept(ear, rows, drafts) && CodesRead(rows, Codes(drafts), byCode)
  }

  lemma CodesReadMore(rows: seq<Row>, row: Row, codes: seq<string>, byCode: map<string, nat>)
    requires CodesRead(rows, codes, byCode)
    ensures if row.cityCode in byCode then CodesRead(rows + [row], codes, byCode)
      else CodesRead(rows + [row], codes + [row.cityCode], byCode[row.cityCode := |codes|])
  {
  }

  /** A row leaves a draft of another city as good as it was. */
  lemma OtherStays(ear: Ear, rows: seq<Row>, d: Draft, row: Row)
    requires Kept(ear, rows, d) && d.code != row.cityCode
    ensures Kept(ear, rows + [row], d)
  {
    StreetsStayListed(ear, rows, row, d.code, d.ids, d.city);
    NamesOfOneMore(ear, rows, row, d.code);
  }

  lemma OneReplaced(ear: Ear, rows: seq<Row>, drafts: seq<Draft>, row: Row, ci: nat, d: Draft)
    requires AllKept(ear, rows, drafts) && ci < |drafts| && Kept(ear, rows + [row], d)
    requires forall i :: 0 <= i < |drafts| && i != ci ==> drafts[i].code != row.cityCode
    ensures AllKept(ear, rows + [row], drafts[ci := d])
  {
    forall i | 0 <= i < |drafts| && i != ci ensures Kept(ear, rows + [row], drafts[i]) {
      OtherStays(ear, rows, drafts[i], row);
    }
  }

  lemma OneMoreDraft(ear: Ear, rows: seq<Row>, drafts: seq<Draft>, row: Row, d: Draft)
    requires AllKept(ear, rows, drafts) && Kept(ear, rows + [row], d)
    requires forall i :: 0 <= i < |drafts| ==> drafts[i].code != row.cityCode
    ensures AllKept(ear, rows + [row], drafts + [d])
  {
    forall i | 0 <= i < |drafts| ensures Kept(ear, rows + [row], drafts[i]) {
      OtherStays(ear, rows, drafts[i], row);
    }
  }

  /** No draft but the one of the code has it. */
  lemma OthersDiffer(drafts: seq<Draft>, byCode: map<string, nat>, code: string)
    requires Indexed(Codes(drafts), byCode)
    ensures forall i :: 0 <= i < |drafts| && drafts[i].code == code ==> code in byCode && byCode[code] == i
  {
    assert forall i :: 0 <= i < |drafts| ==> Codes(drafts)[i] == drafts[i].code;
  }

  lemma RowReplaced(ear: Ear, rows: seq<Row>, drafts: seq<Draft>, byCode: map<string, nat>, row: Row, ci: nat, d: Draft)
    requires RowsRead(ear, rows, drafts, byCode) && row.cityCode in byCode && byCode[row.cityCode] == ci < |drafts|
    requires d.code == drafts[ci].code && Kept(ear, rows + [row], d)
    ensures RowsRead(ear, rows + [row], drafts[ci := d], byCode)
  {
    OthersDiffer(drafts, byCode, row.cityCode);
    OneReplaced(ear, rows, drafts, row, ci, d);
    CodesReadMore(rows, row, Codes(drafts), byCode);
    SameCodes(drafts, ci, d);
  }

  lemma SameCodes(drafts: seq<Draft>, ci: nat, d: Draft)
    requires ci < |drafts| && d.code == drafts[ci].code
    ensures Codes(drafts[ci := d]) == Codes(drafts)
  {
  }

  lemma RowAppended(ear: Ear, rows: seq<Row>, drafts: seq<Draft>, byCode: map<string, nat>, row: Row, d: Draft)
    requires RowsRead(ear, rows, drafts, byCode) && row.cityCode !in byCode && d.code == row.cityCode && Kept(ear, rows + [row], d)
    ensures RowsRead(ear, rows + [row], drafts + [d], byCode[row.cityCode := |drafts|])
  {
    OthersDiffer(drafts, byCode, row.cityCode);
    OneMoreDraft(ear, rows, drafts, row, d);
    CodesReadMore(rows, row, Codes(drafts), byCode);
    assert Codes(drafts + [d]) == Codes(drafts) + [row.cityCode];
  }

  method AddRow(ear: Ear, ghost rows: seq<Row>, drafts: seq<Draft>, byCode: map<string, nat>, row: Row)
    returns (ds: seq<Draft>, codes: map<string, nat>)
    requires RowsRead(ear, rows, drafts, byCode)
    ensures RowsRead(ear, rows + [row], ds, codes)
  {
    if row.cityCode in byCode {
      var ci := byCode[row.cityCode];
      assert Codes(drafts)[ci] == drafts[ci].code;
      var d := AddStreet(ear, rows, drafts[ci], row);
      RowReplaced(ear, rows, drafts, byCode, row, ci, d);
      ds, codes := drafts[ci := d], byCode;
    } else {
      var d := NewCity(ear, rows, row);
      RowAppended(ear, rows, drafts, byCode, row, d);
      ds, codes := drafts + [d], byCode[row.cityCode := |drafts|];
    }
  }

  method NewCity(ear: Ear, ghost rows: seq<Row>, row: Row) returns (d: Draft)
    requires forall i :: 0 <= i < |rows| ==> rows[i].cityCode != row.cityCode
    ensures DraftOk(ear, rows + [row], d) && d.code == row.cityCode && d.city.name == row.cityName
    ensures OwnOk(d) && AllKeys(ear, rows + [row], d)
  {
    d := Draft(row.cityCode, City(row.cityName, [], map[], map[], [], map[]), map[], [], None);
    assert (rows + [row])[|rows|] == row;
    var s;
    d, s := StreetOf(d, row);
    assert IsStreet(rows + [row], d.code, d.ids[0], d.city.streets[0]);
    d := Written(ear, rows, d, row, s);
    NamesOfOthers(ear, rows, d.code);
    NamesOfOneMore(ear, rows, row, d.code);
  }

  /** With more than thirty streets the row of the city's own name names no street. */
  function WithoutOwn(d: Draft): City {
    if d.own.Some? && |d.city.streets| > 30 then
      d.city.(streetKeys := map k | k in d.city.streetKeys && d.city.streetKeys[k] != d.own.value :: d.city.streetKeys[k])
    else d.city
  }

  /** Rows that are comments, blank or of another shape are no rows. */
  function RowsOf(ear: Ear, lines: seq<string>): seq<Row> {
    if lines == [] then []
    else
      var row := ParseRow(ear, lines[|lines| - 1]);
      RowsOf(ear, lines[..|lines| - 1]) + if row.Some? then [row.value] else []
  }

  lemma OneLineMore(ear: Ear, lines: seq<string>, n: nat)
    requires n < |lines|
    ensures var row := ParseRow(ear, lines[n]);
      RowsOf(ear, lines[..n + 1]) == if row.Some? then RowsOf(ear, lines[..n]) + [row.value] else RowsOf(ear, lines[..n])
  {
    assert lines[..n + 1][..n] == lines[..n];
  }

  method ReadDrafts(ear: Ear, lines: seq<string>) returns (drafts: seq<Draft>, byCode: map<string, nat>)
    ensures RowsRead(ear, RowsOf(ear, lines), drafts, byCode)
  {
    drafts, byCode := [], map[];
    ghost var rows := [];
    var n := 0;
    while n < |lines|
      invariant n <= |lines| && rows == RowsOf(ear, lines[..n]) && RowsRead(ear, rows, drafts, byCode)
    {
      OneLineMore(ear, lines, n);
      var row := ParseRow(ear, lines[n]);
      if row.Some? {
        drafts, byCode := AddRow(ear, rows, drafts, byCode, row.value);
        rows := rows + [row.value];
      }
      n := n + 1;
    }
    assert lines[..n] == lines;
  }

  lemma WithoutOwnIsListed(ear: Ear, rows: seq<Row>, d: Draft)
    requires Kept(ear, rows, d)
    ensures StreetsListed(ear, rows, d.code, d.ids, WithoutOwn(d)) && NamesKept(ear, rows, d.code, d.ids, WithoutOwn(d))
    ensures WithoutOwn(d).places == [] && WithoutOwn(d).placeKeys == map[]
  {
  }

  ghost function StreetCodes(drafts: seq<Draft>): seq<seq<string>> {
    seq(|drafts|, i requires 0 <= i < |drafts| => drafts[i].ids)
  }

  function Cities(drafts: seq<Draft>): seq<City> {
    seq(|drafts|, i requires 0 <= i < |drafts| => WithoutOwn(drafts[i]))
  }

  ghost predicate CityListed(ear: Ear, rows: seq<Row>, code: string, ids: seq<string>, c: City) {
    StreetsListed(ear, rows, code, ids, c) && NamesKept(ear, rows, code, ids, c) && c.places == [] && c.placeKeys == map[]
  }

  lemma CitiesAreListed(ear: Ear, rows: seq<Row>, drafts: seq<Draft>, i: nat)
    requires i < |drafts| && Kept(ear, rows, drafts[i])
    ensures CityListed(ear, rows, Codes(drafts)[i], StreetCodes(drafts)[i], Cities(drafts)[i])
  {
    WithoutOwnIsListed(ear, rows, drafts[i]);
  }

  lemma CodesDiffer(codes: seq<string>, byCode: map<string, nat>)
    requires Indexed(codes, byCode)
    ensures forall i, j :: 0 <= i < j < |codes| ==> codes[i] != codes[j]
    ensures forall c :: c in byCode ==> c in codes
  {
    forall i, j | 0 <= i < j < |codes| ensures codes[i] != codes[j] {
      assert byCode[codes[i]] == i && byCode[codes[j]] == j;
    }
  }

  /** The rows of a table of places. */
  function PlaceRowsOf(ear: Ear, lines: seq<string>): seq<PlaceRow> {
    if lines == [] then []
    else
      var row := ParsePlace(ear, lines[|lines| - 1]);
      PlaceRowsOf(ear, lines[..|lines| - 1]) + if row.Some? then [row.value] else []
  }

  lemma {:induction false} OnePlaceMore(ear: Ear, lines: seq<string>, n: nat)
    requires n < |lines|
    ensures var row := ParsePlace(ear, lines[n]);
      PlaceRowsOf(ear, lines[..n + 1]) ==
      if row.Some? then PlaceRowsOf(ear, lines[..n]) + [row.value] else PlaceRowsOf(ear, lines[..n])
  {
    assert lines[..n + 1][..n] == lines[..n];
  }

  /** How many of the rows are of a locality in the list. */
  function Known(ear: Ear, keys: CityKeys, rows: seq<PlaceRow>): nat {
    if rows == [] then 0
    else Known(ear, keys, rows[..|rows| - 1]) + if ear.norm(rows[|rows| - 1].city) in keys then 1 else 0
  }

  lemma {:induction false} KnownOneMore(ear: Ear, keys: CityKeys, rows: seq<PlaceRow>, row: PlaceRow)
    ensures Known(ear, keys, rows + [row]) == Known(ear, keys, rows) + if ear.norm(row.city) in keys then 1 else 0
  {
    assert (rows + [row])[..|rows|] == rows;
  }

  /** The cities of a table. */
  method ReadStreets(ear: Ear, lines: seq<string>) returns (cities: seq<City>, ghost codes: seq<string>, ghost ids: seq<seq<string>>)
    ensures |codes| == |cities| == |ids|
    ensures forall i :: 0 <= i < |cities| ==> CityListed(ear, RowsOf(ear, lines), codes[i], ids[i], cities[i])
    ensures forall i, j :: 0 <= i < j < |codes| ==> codes[i] != codes[j]
    ensures forall r :: r in RowsOf(ear, lines) ==> r.cityCode in codes
  {
    var drafts, byCode := ReadDrafts(ear, lines);
    codes, ids, cities := Codes(drafts), StreetCodes(drafts), Cities(drafts);
    CodesDiffer(codes, byCode);
    forall i | 0 <= i < |cities| ensures CityListed(ear, RowsOf(ear, lines), codes[i], ids[i], cities[i]) {
      CitiesAreListed(ear, RowsOf(ear, lines), drafts, i);
    }
  }

  // ---------------------------------------------------------------------------------------
  // The names of the localities
  // ---------------------------------------------------------------------------------------

  /** Every key leads to a city in the list, under one of its names. */
  ghost predicate KeysLead(ear: Ear, cities: seq<City>, keys: CityKeys) {
    forall k :: k in keys ==>
      && keys[k].0 < |cities|
      && (keys[k].1 in ear.aliases(cities[keys[k].0].name) || keys[k].1 == cities[keys[k].0].name)
  }

  /** Every name of the cities before `n` is a key. */
  ghost predicate NamesAreKeys(ear: Ear, cities: seq<City>, n: nat, keys: CityKeys) {
    forall i, a :: 0 <= i < n <= |cities| && a in ear.aliases(cities[i].name) && |ear.norm(a)| >= 2 ==> ear.norm(a) in keys
  }

  /** The first city with a name keeps it. */
  method AddNames(ear: Ear, cities: seq<City>, ci: nat, names: seq<string>, alias: Option<string>, least: nat, keys: CityKeys)
    returns (r: CityKeys)
    requires ci < |cities| && KeysLead(ear, cities, keys)
    requires if alias.Some? then alias.value == cities[ci].name else names == ear.aliases(cities[ci].name)
    ensures KeysLead(ear, cities, r)
    ensures forall k :: k in keys ==> k in r && r[k] == keys[k]
    ensures forall k :: k in r && k !in keys ==> r[k].0 == ci && exists i :: 0 <= i < |names| && ear.norm(names[i]) == k
    ensures forall i :: 0 <= i < |names| && |ear.norm(names[i])| >= least ==> ear.norm(names[i]) in r
  {
    r := keys;
    var i := 0;
    while i < |names|
      invariant i <= |names| && KeysLead(ear, cities, r)
      invariant forall k :: k in keys ==> k in r && r[k] == keys[k]
      invariant forall k :: k in r && k !in keys ==> r[k].0 == ci && exists j :: 0 <= j < i && ear.norm(names[j]) == k
      invariant forall j :: 0 <= j < i && |ear.norm(names[j])| >= least ==> ear.norm(names[j]) in r
    {
      var key := ear.norm(names[i]);
      if |key| >= least && key !in r {
        r := r[key := (ci, if alias.Some? then alias.value else names[i])];
      }
      i := i + 1;
    }
  }

  method ReadNames(ear: Ear, cities: seq<City>) returns (keys: CityKeys)
    ensures KeysLead(ear, cities, keys) && NamesAreKeys(ear, cities, |cities|, keys)
  {
    keys := map[];
    var ci := 0;
    while ci < |cities|
      invariant ci <= |cities| && KeysLead(ear, cities, keys) && NamesAreKeys(ear, cities, ci, keys)
    {
      keys := AddNames(ear, cities, ci, ear.aliases(cities[ci].name), None, 2, keys);
      ci := ci + 1;
    }
    ci := 0;
    while ci < |cities|
      invariant ci <= |cities| && KeysLead(ear, cities, keys) && NamesAreKeys(ear, cities, |cities|, keys)
    {
      keys := AddNames(ear, cities, ci, ear.bases(cities[ci].name), Some(cities[ci].name), 3, keys);
      ci := ci + 1;
    }
  }

  // ---------------------------------------------------------------------------------------
  // Places
  // ---------------------------------------------------------------------------------------

  /** Keys of place `p` that are free: no street of the city, and no locality, is called so. */
  method AddPlaceKeys(ear: Ear, keys: CityKeys, c: City, names: seq<string>, p: nat) returns (r: City)
    requires p < |c.places|
    requires forall k :: k in c.placeKeys ==> c.placeKeys[k] < |c.places| && k !in c.streetKeys && k !in keys
    ensures r == c.(placeKeys := r.placeKeys)
    ensures forall k :: k in r.placeKeys ==> r.placeKeys[k] < |r.places| && k !in r.streetKeys && k !in keys
    ensures forall k :: k in c.placeKeys ==> k in r.placeKeys && r.placeKeys[k] == c.placeKeys[k]
    ensures forall k :: k in r.placeKeys && k !in c.placeKeys ==> r.placeKeys[k] == p && IsNameOf(ear, names, k)
    ensures forall i :: 0 <= i < |names| ==>
      var k := ear.norm(names[i]);
      k in r.placeKeys <==> k in c.placeKeys || (k != [] && k !in keys && k !in c.streetKeys)
  {
    r := c;
    var i := 0;
    while i < |names|
      invariant i <= |names| && r == c.(placeKeys := r.placeKeys)
      invariant forall k :: k in r.placeKeys ==> r.placeKeys[k] < |r.places| && k !in r.streetKeys && k !in keys
      invariant forall k :: k in c.placeKeys ==> k in r.placeKeys && r.placeKeys[k] == c.placeKeys[k]
      invariant forall k :: k in r.placeKeys && k !in c.placeKeys ==> k != [] && r.placeKeys[k] == p && IsNameOf(ear, names, k)
      invariant forall j :: 0 <= j < i ==>
        var k := ear.norm(names[j]);
        k in r.placeKeys <==> k in c.placeKeys || (k != [] && k !in keys && k !in c.streetKeys)
    {
      var k := ear.norm(names[i]);
      if k != [] && k !in keys && k !in r.streetKeys && k !in r.placeKeys {
        r := r.(placeKeys := r.placeKeys[k := p]);
      }
      i := i + 1;
    }
  }
}
