/** The record-normalisation step of the ETL pipeline (etl_app/transform.py):
    each raw country record from the REST API becomes one flat ten-field row;
    rows without a name are then dropped, keeping input order. */
module Transform {
  import opened Json
  import opened Joining

  /** The `name` object of a raw record; only `common` is read. */
  datatype NameObject = NameObject(common: Option<string>)

  /** The `flags` object of a raw record; only `svg` is read. */
  datatype FlagsObject = FlagsObject(svg: Option<string>)

  /** One value of the `currencies` mapping. */
  datatype Currency = Currency(name: Option<string>, symbol: Option<string>)

  /** A raw country record as decoded from JSON. The `languages` and `currencies`
      mappings are kept as (code, value) pairs in enumeration order. */
  datatype RawCountry = RawCountry(
    name: Field<NameObject>,
    population: Option<int>,
    area: Option<real>,
    capital: Field<seq<string>>,
    flags: Field<FlagsObject>,
    tld: Field<seq<string>>,
    borders: Field<seq<string>>,
    timezones: Field<seq<string>>,
    languages: Field<seq<(string, string)>>,
    currencies: Field<seq<(string, Currency)>>)

  /** The flat row built for one record. `name` is `None` until the final filter. */
  datatype CountryRow = CountryRow(
    name: Option<string>,
    population: Option<int>,
    area: Option<real>,
    capital: string,
    flagSvgUrl: Option<string>,
    tld: string,
    borders: string,
    timezones: string,
    languages: string,
    currencies: string)

  /** Why one record makes the whole transformation raise. */
  datatype RecordFault =
    | NameIsNull   // `"name": null`: `None.get("common")` raises
    | FlagsIsNull  // `"flags": null`: `None.get("svg")` raises

  datatype TransformError =
    | RecordFailed(index: nat, fault: RecordFault)
    | NoNameColumn  // an empty batch builds a frame without a `name` column

  // ---------------------------------------------------------------------------
  // Per-record field extraction

  /** `item.get(key, []) or []` for a list-valued key. */
  function ListOrEmpty<T>(f: Field<seq<T>>): seq<T>
  {
    if f.Present? then f.value else []
  }

  /** A list-valued key joined with `Sep`. */
  function JoinedList(f: Field<seq<string>>): string
  {
    Join(ListOrEmpty(f))
  }

  /** The values of a mapping in enumeration order, codes dropped. */
  function Values<K, V>(m: seq<(K, V)>): seq<V>
  {
    if m == [] then [] else [m[0].1] + Values(m[1..])
  }

  /** `Values` keeps one value per entry, in mapping order. */
  lemma {:induction false} ValuesAt<K, V>(m: seq<(K, V)>)
    ensures |Values(m)| == |m| && forall i :: 0 <= i < |m| ==> Values(m)[i] == m[i].1
  {
    if m != [] {
      ValuesAt(m[1..]);
    }
  }

  /** The `languages` column: the mapping's values joined with `Sep`. */
  function LanguagesOf(f: Field<seq<(string, string)>>): string
  {
    Join(Values(ListOrEmpty(f)))
  }

  /** What one currency entry adds to the list: "Name (Symbol)", the bare name,
      or nothing. */
  function CurrencyPart(c: Currency): Option<string>
  {
    if Truthy(c.name) && Truthy(c.symbol) then Some(c.name.value + " (" + c.symbol.value + ")")
    else if Truthy(c.name) then Some(c.name.value)
    else None
  }

  /** The list the currency loop builds, entry by entry in mapping order. */
  function CurrencyParts(entries: seq<(string, Currency)>): seq<string>
  {
    if entries == [] then []
    else
      var last := CurrencyPart(entries[|entries| - 1].1);
      CurrencyParts(entries[..|entries| - 1]) + (if last.Some? then [last.value] else [])
  }

  /** The `currencies` column. */
  function CurrenciesOf(f: Field<seq<(string, Currency)>>): string
  {
    Join(CurrencyParts(ListOrEmpty(f)))
  }

  /** The `name` of the row: `item.get("name", {}).get("common")`. */
  function NameOf(item: RawCountry): Option<string>
  {
    if item.name.Present? then item.name.value.common else None
  }

  /** The `flag_svg_url` of the row: `item.get("flags", {}).get("svg")`. */
  function FlagOf(item: RawCountry): Option<string>
  {
    if item.flags.Present? then item.flags.value.svg else None
  }

  /** The row built for a record that does not raise. */
  function RowOf(item: RawCountry): CountryRow
  {
    CountryRow(
      NameOf(item), item.population, item.area, JoinedList(item.capital), FlagOf(item),
      JoinedList(item.tld), JoinedList(item.borders), JoinedList(item.timezones),
      LanguagesOf(item.languages), CurrenciesOf(item.currencies))
  }

  /** One pass of the outer loop: the row, or the fault that makes it raise. */
  function ExtractRow(item: RawCountry): (r: Result<CountryRow, RecordFault>)
    ensures r.Err? <==> item.name.Null? || item.flags.Null?
    ensures r.Err? ==> (r.error == NameIsNull <==> item.name.Null?)
    ensures r.Ok? ==> r.value == RowOf(item)
  {
    if item.name.Null? then Err(NameIsNull)
    else if item.flags.Null? then Err(FlagsIsNull)
    else Ok(RowOf(item))
  }

  /** The `rows` list after the outer loop, or the first record's fault. */
  function ExtractAll(raw: seq<RawCountry>): Result<seq<CountryRow>, TransformError>
  {
    if raw == [] then Ok([])
    else
      var n := |raw| - 1;
      match ExtractAll(raw[..n])
      case Err(e) => Err(e)
      case Ok(rows) =>
        match ExtractRow(raw[n])
        case Err(f) => Err(RecordFailed(n, f))
        case Ok(row) => Ok(rows + [row])
  }

  /** `dropna(subset=["name"])`: keep the rows with a name, in order. */
  function DropUnnamed(rows: seq<CountryRow>): seq<CountryRow>
  {
    if rows == [] then []
    else
      var n := |rows| - 1;
      DropUnnamed(rows[..n]) + (if rows[n].name.Some? then [rows[n]] else [])
  }

  /** What `transform_countries` returns for a batch, or why it raises. */
  function Normalized(raw: seq<RawCountry>): Result<seq<CountryRow>, TransformError>
  {
    match ExtractAll(raw)
    case Err(e) => Err(e)
    case Ok(rows) => if rows == [] then Err(NoNameColumn) else Ok(DropUnnamed(rows))
  }

  // ---------------------------------------------------------------------------
  // The two loops of transform_countries

  /** The inner loop: builds `cur_list` from the currency entries. */
  method CollectCurrencies(entries: seq<(string, Currency)>) returns (curList: seq<string>)
    ensures curList == CurrencyParts(entries)
  {
    curList := [];
    var i := 0;
    while i < |entries|
      invariant 0 <= i <= |entries|
      invariant curList == CurrencyParts(entries[..i])
    {
      var c := entries[i].1;
      if Truthy(c.name) && Truthy(c.symbol) {
        curList := curList + [c.name.value + " (" + c.symbol.value + ")"];
      } else if Truthy(c.name) {
        curList := curList + [c.name.value];
      }
      assert entries[..i + 1][..i] == entries[..i];
      i := i + 1;
    }
    assert entries[..i] == entries;
  }

  /** A fault at record `i`, after `i` clean records, is what the whole batch raises. */
  lemma {:induction false} ExtractAllStopsAt(raw: seq<RawCountry>, i: nat)
    requires i < |raw|
    requires ExtractAll(raw[..i]).Ok? && ExtractRow(raw[i]).Err?
    ensures ExtractAll(raw) == Err(RecordFailed(i, ExtractRow(raw[i]).error))
    decreases |raw|
  {
    var n := |raw| - 1;
    if i == n {
      assert raw[..n] == raw[..i];
    } else {
      assert raw[..n][..i] == raw[..i];
      ExtractAllStopsAt(raw[..n], i);
    }
  }

  /** `transform_countries`: the outer loop, then the name filter. */
  method TransformCountries(raw: seq<RawCountry>) returns (r: Result<seq<CountryRow>, TransformError>)
    ensures r == Normalized(raw)
  {
    var rows: seq<CountryRow> := [];
    var i := 0;
    while i < |raw|
      invariant 0 <= i <= |raw|
      invariant ExtractAll(raw[..i]) == Ok(rows)
    {
      var item := raw[i];
      if item.name.Null? {
        ExtractAllStopsAt(raw, i);
        return Err(RecordFailed(i, NameIsNull));
      }
      var nameCommon := if item.name.Present? then item.name.value.common else None;
      if item.flags.Null? {
        ExtractAllStopsAt(raw, i);
        return Err(RecordFailed(i, FlagsIsNull));
      }
      var flagSvgUrl := if item.flags.Present? then item.flags.value.svg else None;
      var currs := ListOrEmpty(item.currencies);
      var curList := CollectCurrencies(currs);
      var row := CountryRow(
        nameCommon, item.population, item.area, JoinedList(item.capital), flagSvgUrl,
        JoinedList(item.tld), JoinedList(item.borders), JoinedList(item.timezones),
        LanguagesOf(item.languages), Join(curList));
      assert raw[..i + 1][..i] == raw[..i];
      rows := rows + [row];
      i := i + 1;
    }
    assert raw[..i] == raw;
    if rows == [] {
      return Err(NoNameColumn);
    }
    r := Ok(DropUnnamed(rows));
  }
}
