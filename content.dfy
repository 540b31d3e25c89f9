/** The content service: `get_music` turns the optional title, artist and
    year of a request into a DynamoDB filter expression, scans the `Music`
    table with it and strips the type tags off the items it gets back
    (`flatten_response_dict`). The table is held in memory as a sequence of
    items, and the scan keeps the items on which every equality clause holds. */
module Content {
  import opened Outcomes
  import Strings
  import Decimal

  /** A value as the low-level DynamoDB client carries it, the one-entry
      dictionary `{tag: payload}`, e.g. `{"S": "Imagine"}`. */
  datatype AttributeValue = AttributeValue(tag: string, payload: string)

  /** A string-tagged value, `{"S": v}`. */
  function S(v: string): AttributeValue
  {
    AttributeValue("S", v)
  }

  /** An item as the scan returns it: attribute name -> tagged value. */
  type Item = map<string, AttributeValue>

  /** An item with the tags stripped: attribute name -> plain value. */
  type Record = map<string, string>

  /** One equality clause `name = placeholder` of a filter expression. */
  datatype Clause = Clause(name: string, placeholder: string)

  function Render(c: Clause): string
  {
    c.name + " = " + c.placeholder
  }

  const TitleClause := Clause("title", ":_title")
  const ArtistClause := Clause("artist", ":_artist")
  /** `year` is a reserved word of the DynamoDB expression language, so its
      clause names the attribute through the alias `#yr`. */
  const YearClause := Clause("#yr", ":_year")

  /** The arguments of the filtered scan: the clauses (joined by `" AND "`
      into `FilterExpression`), `ExpressionAttributeNames` when it is passed at
      all, and `ExpressionAttributeValues`. */
  datatype Filter = Filter(clauses: seq<Clause>, names: Option<map<string, string>>,
                           values: map<string, AttributeValue>)

  function RenderAll(cs: seq<Clause>): (r: seq<string>)
    ensures |r| == |cs| && forall i :: 0 <= i < |cs| ==> r[i] == Render(cs[i])
  {
    if |cs| == 0 then [] else [Render(cs[0])] + RenderAll(cs[1..])
  }

  /** The `FilterExpression` string: the rendered clauses joined by `" AND "`,
      starting with the first clause. */
  function Condition(f: Filter): (r: string)
    ensures |f.clauses| == 0 ==> r == ""
    ensures |f.clauses| == 1 ==> r == Render(f.clauses[0])
    ensures |f.clauses| > 0 ==> Render(f.clauses[0]) <= r
  {
    Strings.Join(RenderAll(f.clauses), " AND ")
  }

  /** Python truthiness of the optional query parameters: None, the empty
      string and the year 0 are all "not given". */
  predicate Given(s: Option<string>)
  {
    s.Some? && s.value != ""
  }

  predicate YearGiven(year: Option<int>)
  {
    year.Some? && year.value != 0
  }

  function CountGiven(title: Option<string>, artist: Option<string>, year: Option<int>): nat
  {
    (if Given(title) then 1 else 0) + (if Given(artist) then 1 else 0) + (if YearGiven(year) then 1 else 0)
  }

  /** Position of a clause in the fixed order title, artist, year. */
  function Rank(c: Clause): nat
  {
    if c == TitleClause then 0 else if c == ArtistClause then 1 else 2
  }

  /** The clauses of the filter, in the fixed order title, artist, year. */
  function ClausesFor(title: Option<string>, artist: Option<string>, year: Option<int>): seq<Clause>
  {
    (if Given(title) then [TitleClause] else [])
    + (if Given(artist) then [ArtistClause] else [])
    + (if YearGiven(year) then [YearClause] else [])
  }

  /** The placeholder values of the filter, every one string-tagged. */
  function ValuesFor(title: Option<string>, artist: Option<string>, year: Option<int>): map<string, AttributeValue>
  {
    var withTitle := if Given(title) then map[":_title" := S(title.value)] else map[];
    var withArtist := if Given(artist) then withTitle[":_artist" := S(artist.value)] else withTitle;
    if YearGiven(year) then withArtist[":_year" := S(Decimal.IntToString(year.value))] else withArtist
  }

  /** The filter `get_music` builds for a request, or 400 when no parameter
      is given. */
  function FilterFor(title: Option<string>, artist: Option<string>, year: Option<int>): (r: Reply<Filter>)
    ensures r.Fail? <==> !Given(title) && !Given(artist) && !YearGiven(year)
    ensures r.Fail? ==> r.status == BadRequest
    ensures r.Ok? ==> var f := r.value;
      && |f.clauses| == CountGiven(title, artist, year)
      && (TitleClause in f.clauses <==> Given(title))
      && (ArtistClause in f.clauses <==> Given(artist))
      && (YearClause in f.clauses <==> YearGiven(year))
      && (forall i, j :: 0 <= i < j < |f.clauses| ==> Rank(f.clauses[i]) < Rank(f.clauses[j]))
    ensures r.Ok? ==> var f := r.value;
      && (f.names.Some? <==> YearGiven(year))
      && (f.names.Some? ==> f.names.value == map["#yr" := "year"])
    ensures r.Ok? ==> var f := r.value;
      && (":_title" in f.values <==> Given(title))
      && (":_artist" in f.values <==> Given(artist))
      && (":_year" in f.values <==> YearGiven(year))
      && f.values.Keys <= {":_title", ":_artist", ":_year"}
      && (Given(title) ==> f.values[":_title"] == S(title.value))
      && (Given(artist) ==> f.values[":_artist"] == S(artist.value))
      && (YearGiven(year) ==> f.values[":_year"] == S(Decimal.IntToString(year.value)))
  {
    if !Given(title) && !Given(artist) && !YearGiven(year) then Fail(BadRequest)
    else
      Ok(Filter(ClausesFor(title, artist, year),
                if YearGiven(year) then Some(map["#yr" := "year"]) else None,
                ValuesFor(title, artist, year)))
  }

  /** The query-building half of `get_music`, step by step: one clause and
      one value per given parameter, the `#yr` alias only with the year, and
      the alias map passed only when it is not empty. */
  method BuildFilter(title: Option<string>, artist: Option<string>, year: Option<int>) returns (r: Reply<Filter>)
    ensures r == FilterFor(title, artist, year)
  {
    if !(Given(title) || Given(artist) || YearGiven(year)) {
      return Fail(BadRequest);
    }
    var condition: seq<Clause> := [];
    var attributeName: map<string, string> := map[];
    var attributeValues: map<string, AttributeValue> := map[];
    if Given(title) {
      condition := condition + [TitleClause];
      attributeValues := attributeValues[":_title" := S(title.value)];
    }
    assert condition == ClausesFor(title, None, None);
    if Given(artist) {
      condition := condition + [ArtistClause];
      attributeValues := attributeValues[":_artist" := S(artist.value)];
    }
    assert condition == ClausesFor(title, artist, None);
    if YearGiven(year) {
      condition := condition + [YearClause];
      attributeName := attributeName["#yr" := "year"];
      attributeValues := attributeValues[":_year" := S(Decimal.IntToString(year.value))];
      assert |attributeName| == 1;
    }
    assert condition == ClausesFor(title, artist, year);
    assert attributeValues == ValuesFor(title, artist, year);
    var names := if |attributeName| > 0 then Some(attributeName) else None;
    r := Ok(Filter(condition, names, attributeValues));
  }

  /** The attribute a clause name stands for, after the alias map. */
  function Resolve(names: Option<map<string, string>>, name: string): string
  {
    if names.Some? && name in names.value then names.value[name] else name
  }

  /** The item's attribute named by the clause equals the placeholder's value. */
  predicate Holds(f: Filter, c: Clause, item: Item)
  {
    var attribute := Resolve(f.names, c.name);
    attribute in item && c.placeholder in f.values && item[attribute] == f.values[c.placeholder]
  }

  /** The item satisfies every equality clause of the filter. */
  predicate Matches(f: Filter, item: Item)
  {
    forall c :: c in f.clauses ==> Holds(f, c, item)
  }

  /** The filtered scan over the in-memory table: the matching items, in
      table order. */
  function Scan(table: seq<Item>, f: Filter): (r: seq<Item>)
    ensures |r| <= |table|
    ensures forall item :: item in r <==> item in table && Matches(f, item)
    ensures forall item :: multiset(r)[item] == if Matches(f, item) then multiset(table)[item] else 0
  {
    if |table| == 0 then []
    else
      assert table == [table[0]] + table[1..];
      if Matches(f, table[0]) then [table[0]] + Scan(table[1..], f)
    else Scan(table[1..], f)
  }

  /** Scanning two halves of a table one after the other gives the scan of the
      whole table: the matching items keep the table's order. */
  lemma {:induction false} ScanAppend(a: seq<Item>, b: seq<Item>, f: Filter)
    ensures Scan(a + b, f) == Scan(a, f) + Scan(b, f)
  {
    if |a| == 0 {
      assert a + b == b;
    } else {
      var ab := a + b;
      assert ab[0] == a[0];
      assert ab[1..] == a[1..] + b;
      ScanAppend(a[1..], b, f);
      if Matches(f, a[0]) {
        calc {
          Scan(ab, f);
          [a[0]] + Scan(a[1..] + b, f);
          [a[0]] + (Scan(a[1..], f) + Scan(b, f));
          ([a[0]] + Scan(a[1..], f)) + Scan(b, f);
        }
      }
    }
  }

  /** An item matches the filter built for a request exactly when it holds
      each given parameter, with the year compared as its decimal string. */
  lemma FilterMatchesCriteria(title: Option<string>, artist: Option<string>, year: Option<int>, item: Item)
    requires FilterFor(title, artist, year).Ok?
    ensures Matches(FilterFor(title, artist, year).value, item) <==>
      && (Given(title) ==> "title" in item && item["title"] == S(title.value))
      && (Given(artist) ==> "artist" in item && item["artist"] == S(artist.value))
      && (YearGiven(year) ==> "year" in item && item["year"] == S(Decimal.IntToString(year.value)))
  {
    var f := FilterFor(title, artist, year).value;
    assert f.clauses == ClausesFor(title, artist, year);
    if Given(title) {
      assert Holds(f, TitleClause, item) <==> "title" in item && item["title"] == S(title.value);
    }
    if Given(artist) {
      assert Holds(f, ArtistClause, item) <==> "artist" in item && item["artist"] == S(artist.value);
    }
    if YearGiven(year) {
      assert Resolve(f.names, "#yr") == "year";
      assert Holds(f, YearClause, item) <==>
             "year" in item && item["year"] == S(Decimal.IntToString(year.value));
    }
    forall c | c in f.clauses
      ensures c == TitleClause || c == ArtistClause || c == YearClause
    {
    }
  }

  /** `year` alone: one clause, `#yr = :_year`, with the alias. */
  lemma YearOnlyFilter(year: int)
    requires year != 0
    ensures FilterFor(None, None, Some(year)).Ok?
    ensures Condition(FilterFor(None, None, Some(year)).value) == "#yr = :_year"
    ensures FilterFor(None, None, Some(year)).value.names == Some(map["#yr" := "year"])
  {
    // The rendered literal, which the solver does not find on every seed.
    assert Render(YearClause) == "#yr = :_year";
  }

  /** `title` and `year`: `title = :_title AND #yr = :_year`, with the alias. */
  lemma TitleAndYearFilter(title: string, year: int)
    requires title != "" && year != 0
    ensures FilterFor(Some(title), None, Some(year)).Ok?
    ensures Condition(FilterFor(Some(title), None, Some(year)).value) == "title = :_title AND #yr = :_year"
  {
    var f := FilterFor(Some(title), None, Some(year)).value;
    assert f.clauses == [TitleClause, YearClause];
    assert Render(TitleClause) == "title = :_title";
    assert Render(YearClause) == "#yr = :_year";
    // Without these steps, unfolding the join is out of resource on some seeds.
    var rendered := RenderAll(f.clauses);
    assert rendered == ["title = :_title", "#yr = :_year"];
    assert rendered[1..] == ["#yr = :_year"];
    calc {
      Condition(f);
      Strings.Join(rendered, " AND ");
      rendered[0] + " AND " + Strings.Join(rendered[1..], " AND ");
      "title = :_title" + " AND " + "#yr = :_year";
    }
  }

  /** `flatten_response_dict` on one item: every value's `"S"` payload under
      the same key, or None where `value["S"]` raises KeyError. */
  function FlattenItem(item: Item): (r: Option<Record>)
    ensures r.Some? <==> forall k :: k in item ==> item[k].tag == "S"
    ensures r.Some? ==> r.value.Keys == item.Keys && forall k :: k in item ==> r.value[k] == item[k].payload
  {
    if forall k :: k in item ==> item[k].tag == "S" then Some(map k | k in item :: item[k].payload) else None
  }

  /** `flatten_response_dict`: the items in the same order, each flattened;
      None when some value carries no `"S"` tag. */
  function FlattenResponse(items: seq<Item>): (r: Option<seq<Record>>)
    ensures r.Some? <==> forall i :: 0 <= i < |items| ==> FlattenItem(items[i]).Some?
    ensures r.Some? ==> |r.value| == |items| && forall i :: 0 <= i < |items| ==> FlattenItem(items[i]) == Some(r.value[i])
  {
    if |items| == 0 then Some([])
    else match (FlattenItem(items[0]), FlattenResponse(items[1..]))
      case (Some(first), Some(rest)) => Some([first] + rest)
      case _ => None
  }

  /** Tagging every value of a record as a string, the inverse of flattening. */
  function TagRecord(record: Record): (item: Item)
  {
    map k | k in record :: S(record[k])
  }

  /** Flattening gives back exactly the records whose values were tagged. */
  lemma FlattenUndoesTagging(records: seq<Record>)
    ensures FlattenResponse(seq(|records|, i requires 0 <= i < |records| => TagRecord(records[i]))) == Some(records)
  {
    var items := seq(|records|, i requires 0 <= i < |records| => TagRecord(records[i]));
    forall i | 0 <= i < |records|
      ensures FlattenItem(items[i]) == Some(records[i])
    {
      var flat := FlattenItem(items[i]);
      assert flat.Some?;
      assert flat.value == records[i];
    }
    var r := FlattenResponse(items);
    assert r.Some?;
    assert r.value == records;
  }

  /** `get_music`: 400 without parameters; otherwise the flattened items of
      the filtered scan, or 500 when an item carries a value that is not
      string-tagged. */
  method GetMusic(table: seq<Item>, title: Option<string>, artist: Option<string>, year: Option<int>)
    returns (r: Reply<seq<Record>>)
    ensures r.Fail? && r.status == BadRequest <==> !Given(title) && !Given(artist) && !YearGiven(year)
    ensures r.Ok? ==> forall rec :: rec in r.value ==>
              exists item :: item in table && Matches(FilterFor(title, artist, year).value, item)
                             && FlattenItem(item) == Some(rec)
    ensures FilterFor(title, artist, year).Ok? ==>
              var found := Scan(table, FilterFor(title, artist, year).value);
              r == match FlattenResponse(found)
                   case None => Fail(ServerError)
                   case Some(records) => Ok(records)
  {
    var filter := BuildFilter(title, artist, year);
    if filter.Fail? {
      return Fail(filter.status);
    }
    var found := Scan(table, filter.value);
    var flat := FlattenResponse(found);
    if flat.None? {
      return Fail(ServerError);
    }
    r := Ok(flat.value);
    forall rec | rec in r.value
      ensures exists item :: item in table && Matches(filter.value, item) && FlattenItem(item) == Some(rec)
    {
      var i :| 0 <= i < |r.value| && r.value[i] == rec;
      assert found[i] in found;
    }
  }
}
