/** What transform_countries promises about its output, proved of the
    specification functions that its two loops are verified against. */
module TransformProperties {
  import opened Json
  import opened Joining
  import opened Transform

  /** A record whose name survives the final filter. */
  predicate HasName(item: RawCountry)
  {
    NameOf(item).Some?
  }

  /** A record the outer loop can process without raising. */
  predicate Clean(item: RawCountry)
  {
    !item.name.Null? && !item.flags.Null?
  }

  /** Positions, in increasing order, of the records that keep their row. */
  function KeptIndices(raw: seq<RawCountry>): (idx: seq<nat>)
    ensures forall k :: 0 <= k < |idx| ==> idx[k] < |raw|
  {
    if raw == [] then []
    else
      var n := |raw| - 1;
      KeptIndices(raw[..n]) + (if HasName(raw[n]) then [n] else [])
  }

  /** The outer loop gets through the batch exactly when every record is clean. */
  lemma {:induction false} ExtractAllSucceeds(raw: seq<RawCountry>)
    ensures ExtractAll(raw).Ok? <==> forall i :: 0 <= i < |raw| ==> Clean(raw[i])
  {
    if raw != [] {
      var n := |raw| - 1;
      var pre := raw[..n];
      ExtractAllSucceeds(pre);
      assert forall i :: 0 <= i < n ==> pre[i] == raw[i];
    }
  }

  /** When it gets through, the outer loop has built one row per record, in order. */
  lemma {:induction false} ExtractAllRows(raw: seq<RawCountry>)
    requires ExtractAll(raw).Ok?
    ensures |ExtractAll(raw).value| == |raw|
    ensures forall i :: 0 <= i < |raw| ==>
      ExtractRow(raw[i]).Ok? && ExtractAll(raw).value[i] == ExtractRow(raw[i]).value
  {
    if raw != [] {
      var n := |raw| - 1;
      var pre := raw[..n];
      var rows := ExtractAll(pre).value;
      ExtractAllRows(pre);
      var all := rows + [ExtractRow(raw[n]).value];
      assert ExtractAll(raw).value == all;
      forall i | 0 <= i < n
        ensures ExtractRow(raw[i]).Ok? && all[i] == ExtractRow(raw[i]).value
      {
        assert all[i] == rows[i] && pre[i] == raw[i];
      }
    }
  }

  /** When it raises, it raises at the first record that is not clean, naming
      the `null` name before the `null` flags. */
  lemma {:induction false} ExtractAllFirstFault(raw: seq<RawCountry>)
    requires ExtractAll(raw).Err?
    ensures ExtractAll(raw).error.RecordFailed?
    ensures
      var i := ExtractAll(raw).error.index;
      i < |raw| && !Clean(raw[i]) &&
      (ExtractAll(raw).error.fault == NameIsNull <==> raw[i].name.Null?) &&
      forall j :: 0 <= j < i ==> Clean(raw[j])
  {
    var n := |raw| - 1;
    var pre := raw[..n];
    if ExtractAll(pre).Err? {
      ExtractAllFirstFault(pre);
      assert ExtractAll(raw) == ExtractAll(pre);
      assert forall j :: 0 <= j < n ==> pre[j] == raw[j];
    } else {
      ExtractAllSucceeds(pre);
      assert forall j :: 0 <= j < n ==> pre[j] == raw[j];
    }
  }

  /** The kept positions increase strictly: the filter keeps input order. */
  lemma {:induction false} KeptIndicesIncrease(raw: seq<RawCountry>)
    ensures forall k, l :: 0 <= k < l < |KeptIndices(raw)| ==> KeptIndices(raw)[k] < KeptIndices(raw)[l]
  {
    if raw != [] {
      var n := |raw| - 1;
      KeptIndicesIncrease(raw[..n]);
    }
  }

  /** The kept positions are exactly those of the records with a name. */
  lemma {:induction false} KeptIndicesExact(raw: seq<RawCountry>)
    ensures forall i :: 0 <= i < |raw| ==> (HasName(raw[i]) <==> i in KeptIndices(raw))
  {
    if raw != [] {
      var n := |raw| - 1;
      var pre := raw[..n];
      KeptIndicesExact(pre);
      var idx := KeptIndices(pre);
      var idx' := KeptIndices(raw);
      assert idx' == idx + (if HasName(raw[n]) then [n] else []);
      assert n in idx' <==> HasName(raw[n]);
      forall i | 0 <= i < n
        ensures HasName(raw[i]) <==> i in idx'
      {
        assert pre[i] == raw[i];
        assert i in idx <==> i in idx';
      }
    }
  }

  /** Dropping unnamed rows picks the rows at the kept positions, in order. */
  lemma {:induction false} DropUnnamedSelects(raw: seq<RawCountry>, rows: seq<CountryRow>)
    requires |rows| == |raw| && forall i :: 0 <= i < |raw| ==> rows[i].name == NameOf(raw[i])
    ensures
      var out := DropUnnamed(rows);
      var idx := KeptIndices(raw);
      |out| == |idx| && forall k :: 0 <= k < |idx| ==> out[k] == rows[idx[k]]
  {
    if raw != [] {
      var n := |raw| - 1;
      DropUnnamedSelects(raw[..n], rows[..n]);
      var idx, out := KeptIndices(raw[..n]), DropUnnamed(rows[..n]);
      assert forall i :: 0 <= i < n ==> raw[..n][i] == raw[i] && rows[..n][i] == rows[i];
      if HasName(raw[n]) {
        var idx', out' := idx + [n], out + [rows[n]];
        assert KeptIndices(raw) == idx';
        assert DropUnnamed(rows) == out';
        forall k | 0 <= k < |idx'|
          ensures out'[k] == rows[idx'[k]]
        {
          if k < |idx| {
            assert idx'[k] == idx[k] && out'[k] == out[k];
          }
        }
      } else {
        assert KeptIndices(raw) == idx;
        assert DropUnnamed(rows) == out;
      }
    }
  }

  /** When the batch does not raise, the output is a stable filter of the input:
      one row per named record, in input order, each built from its record. */
  lemma NormalizedIsStableFilter(raw: seq<RawCountry>)
    requires Normalized(raw).Ok?
    ensures
      var out := Normalized(raw).value;
      var idx := KeptIndices(raw);
      |out| == |idx| <= |raw| &&
      (forall k, l :: 0 <= k < l < |idx| ==> idx[k] < idx[l]) &&
      (forall i :: 0 <= i < |raw| ==> (HasName(raw[i]) <==> i in idx)) &&
      forall k :: 0 <= k < |out| ==> idx[k] < |raw| && out[k] == RowOf(raw[idx[k]])
  {
    ExtractAllRows(raw);
    DropUnnamedSelects(raw, ExtractAll(raw).value);
    KeptIndicesIncrease(raw);
    KeptIndicesExact(raw);
    IndicesBounded(KeptIndices(raw), |raw|);
  }

  /** Every output row has a name, its record's `name.common`; population and
      area pass through, and the flag URL is absent exactly when the record has
      no flags object or no `svg` in it. */
  lemma NormalizedRowFields(raw: seq<RawCountry>, k: nat)
    requires Normalized(raw).Ok? && k < |KeptIndices(raw)|
    ensures k < |Normalized(raw).value|
    ensures
      var row := Normalized(raw).value[k];
      var item := raw[KeptIndices(raw)[k]];
      item.name.Present? && row.name.Some? && row.name == item.name.value.common &&
      row.population == item.population && row.area == item.area &&
      row.flagSvgUrl == (if item.flags.Present? then item.flags.value.svg else None)
  {
    NormalizedIsStableFilter(raw);
    var i := KeptIndices(raw)[k];
    assert HasName(raw[i]);
  }

  /** A strictly increasing sequence below `n` has at most `n` elements. */
  lemma {:induction false} IndicesBounded(idx: seq<nat>, n: nat)
    requires forall k :: 0 <= k < |idx| ==> idx[k] < n
    requires forall k, l :: 0 <= k < l < |idx| ==> idx[k] < idx[l]
    ensures |idx| <= n
  {
    if idx != [] {
      var m := |idx| - 1;
      IndicesBounded(idx[..m], idx[m]);
    }
  }

  /** When and how `transform_countries` raises: an empty batch has no `name`
      column to filter on; otherwise the first record with a `null` name or flags
      object raises, the name check coming first. */
  lemma NormalizedErrors(raw: seq<RawCountry>)
    ensures Normalized(raw).Ok? <==> raw != [] && forall i :: 0 <= i < |raw| ==> Clean(raw[i])
    ensures Normalized(raw) == Err(NoNameColumn) <==> raw == []
    ensures Normalized(raw).Err? && Normalized(raw).error.RecordFailed? ==>
      var i := Normalized(raw).error.index;
      i < |raw| && !Clean(raw[i]) &&
      (Normalized(raw).error.fault == NameIsNull <==> raw[i].name.Null?) &&
      forall j :: 0 <= j < i ==> Clean(raw[j])
  {
    ExtractAllSucceeds(raw);
    if ExtractAll(raw).Err? {
      ExtractAllFirstFault(raw);
    }
  }

  /** A list column is empty when the key is missing, `null`, an empty list (or
      a list of one empty string); otherwise splitting it at the separator gives
      the list back, as long as no element holds a comma. */
  lemma ListColumn(f: Field<seq<string>>)
    ensures JoinedList(f) == "" <==> f.Missing? || f.Null? || f == Present([]) || f == Present([""])
    ensures f.Present? && f.value != [] && CommaFree(f.value) ==> Split(JoinedList(f)) == f.value
  {
    JoinEmptyIff(ListOrEmpty(f));
    if f.Present? && f.value != [] && CommaFree(f.value) {
      SplitJoin(f.value);
    }
  }

  /** The languages column holds the mapping's values, never its codes, in
      mapping order; it is empty when the mapping is missing, `null` or empty. */
  lemma LanguagesColumn(f: Field<seq<(string, string)>>)
    ensures LanguagesOf(f) == "" <==>
      f.Missing? || f.Null? || f == Present([]) || (f.Present? && Values(f.value) == [""])
    ensures f.Present? && f.value != [] && CommaFree(Values(f.value)) ==>
      Split(LanguagesOf(f)) == Values(f.value)
  {
    JoinEmptyIff(Values(ListOrEmpty(f)));
    if f.Present? && f.value != [] && CommaFree(Values(f.value)) {
      SplitJoin(Values(f.value));
    }
  }

  /** How one more currency entry changes the currencies column: an entry with a
      name and a symbol adds "Name (Symbol)", one with a name only adds the name,
      one without a name adds nothing; added parts follow the earlier ones after
      the separator. */
  lemma CurrenciesAppend(entries: seq<(string, Currency)>, code: string, c: Currency)
    ensures
      var before := CurrenciesOf(Present(entries));
      var after := CurrenciesOf(Present(entries + [(code, c)]));
      var first := CurrencyParts(entries) == [];
      (!Truthy(c.name) ==> after == before) &&
      (Truthy(c.name) && Truthy(c.symbol) ==>
        after == (if first then "" else before + Sep) + c.name.value + " (" + c.symbol.value + ")") &&
      (Truthy(c.name) && !Truthy(c.symbol) ==>
        after == (if first then "" else before + Sep) + c.name.value)
  {
    var e := entries + [(code, c)];
    assert e[..|e| - 1] == entries;
    var parts := CurrencyParts(entries);
    if Truthy(c.name) {
      var p := CurrencyPart(c).value;
      assert CurrencyParts(e) == parts + [p];
      if parts == [] {
        assert parts + [p] == [p];
      } else {
        JoinAppend(parts, p);
      }
    } else {
      assert CurrencyParts(e) == parts;
    }
  }

  /** The currency list has one non-empty part per entry with a non-empty name,
      so at most one per entry. */
  lemma {:induction false} CurrencyPartsCount(entries: seq<(string, Currency)>)
    ensures |CurrencyParts(entries)| == |set i | 0 <= i < |entries| && Truthy(entries[i].1.name)|
    ensures |CurrencyParts(entries)| <= |entries|
    ensures forall k :: 0 <= k < |CurrencyParts(entries)| ==> CurrencyParts(entries)[k] != ""
  {
    if entries != [] {
      var n := |entries| - 1;
      CurrencyPartsCount(entries[..n]);
      var last := CurrencyPart(entries[n].1);
      assert last.Some? ==> last.value != "";
      var before := set i | 0 <= i < n && Truthy(entries[..n][i].1.name);
      var now := set i | 0 <= i < |entries| && Truthy(entries[i].1.name);
      assert before == set i | 0 <= i < n && Truthy(entries[i].1.name);
      if Truthy(entries[n].1.name) {
        assert now == before + {n};
      } else {
        assert now == before;
      }
    }
  }

  /** The currencies column is empty exactly when no entry has a non-empty name,
      and splits back into its parts when no part holds a comma. */
  lemma CurrenciesColumn(f: Field<seq<(string, Currency)>>)
    ensures CurrenciesOf(f) == "" <==>
      forall i :: 0 <= i < |ListOrEmpty(f)| ==> !Truthy(ListOrEmpty(f)[i].1.name)
    ensures CurrencyParts(ListOrEmpty(f)) != [] && CommaFree(CurrencyParts(ListOrEmpty(f))) ==>
      Split(CurrenciesOf(f)) == CurrencyParts(ListOrEmpty(f))
  {
    var entries := ListOrEmpty(f);
    var parts := CurrencyParts(entries);
    CurrencyPartsCount(entries);
    JoinEmptyIff(parts);
    var named := set i | 0 <= i < |entries| && Truthy(entries[i].1.name);
    if parts == [] {
      assert named == {};
      forall i | 0 <= i < |entries| ensures !Truthy(entries[i].1.name) {
        assert i !in named;
      }
    } else {
      assert parts[0] != "";
      var w :| w in named;
    }
    if parts != [] && CommaFree(parts) {
      SplitJoin(parts);
    }
  }
}
