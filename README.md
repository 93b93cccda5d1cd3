# Countries ETL and dashboard: record normalisation and flag selection

This project models, in Dafny, the two pieces of logic of a small
extract–transform–load pipeline for a public country dataset:

- **Normaliser** (`transform_countries`): each raw country record returned by
  the REST API becomes one flat ten-field row. The fields are name,
  population, area, capital, flag SVG URL, top-level domains, borders,
  time zones, languages and currencies. Rows without a name are then dropped,
  and the surviving rows keep their input order.
- **Flag selection** (`update_flag`): from the rows the dashboard table
  currently displays and the selected row indices, the URL and the style of
  the flag preview image.

Files:

- `json.dfy` (module `Json`): `Option`, `Result`, and `Field`. A `Field` is a JSON
  key that is missing, present with `null`, or present with a value. It also
  holds Python truthiness for optional strings.
- `joining.dfy` (module `Joining`): `", ".join` as `Join`, and `str.split(", ")`
  as `Split`, its inverse on non-empty lists of comma-free parts.
- `transform.dfy` (module `Transform`): the raw record and the row datatypes,
  the specification functions (`ExtractRow`, `ExtractAll`, `DropUnnamed`,
  `Normalized`), and the two loops of the source as methods proved against them.
  The outer loop is `TransformCountries`; the currency loop is `CollectCurrencies`.
- `transform_props.dfy` (module `TransformProperties`): what the normaliser
  promises. It covers the stable filter, when it raises, and the content of
  each joined column.
- `dashboard.dfy` (module `Dashboard`): `update_flag` as a pure function.

The `languages` and `currencies` mappings are sequences of (code, value) pairs
in the mapping's enumeration order, because the code joins them in that order.

Behaviour of the code that a reader might not expect:

- A record whose `"name"` or `"flags"` key is an explicit `null` makes the
  whole batch raise: the code calls `.get` on `None` at lines 19 and 23, which
  raises.
  The model returns `Err(RecordFailed(i, …))` for the first such record, and
  the name check comes first.
- An empty batch raises. `dropna(subset=["name"])` at line 57 needs a `name`
  column, and a frame built from no rows has none. The model returns
  `Err(NoNameColumn)`.
- A missing flags object or SVG URL gives an absent `flag_svg_url` (`None`),
  not the empty string.
- A record whose `name.common` is the empty string is kept, because `dropna`
  drops only missing values.
- In the dashboard, a displayed row whose `flag_svg_url` is an explicit `null`
  yields a `None` source. `dict.get` returns the default `""` only for a
  missing key.

## Model

| member | source | states |
|---|---|---|
| Joining.JoinLength | etl_app/transform.py:22-30 | `", ".join` of a non-empty list is as long as the parts together plus two characters per separator |
| Joining.JoinAppend | etl_app/transform.py:42 | joining one more part appends the separator and that part |
| Joining.JoinEmptyIff | etl_app/transform.py:22-26 | a joined string is empty exactly when there is nothing to join, or the only part is empty |
| Joining.SplitJoin | etl_app/transform.py:22-30 | joining a non-empty list of comma-free parts is lossless: splitting at `", "` returns the parts (the empty list joins to `""`, which splits to `[""]`) |
| Transform.ValuesAt | etl_app/transform.py:30 | `langs.values()`: one value per entry, in mapping order, without the codes |
| Transform.ExtractRow | etl_app/transform.py:19-55 | one record raises exactly when its `name` or `flags` key is `null`, with the name fault taking precedence; otherwise it yields its row |
| Transform.CollectCurrencies | etl_app/transform.py:34-41 | the currency loop builds exactly the per-entry list `CurrencyParts` of the mapping, in mapping order |
| Transform.TransformCountries | etl_app/transform.py:6-60 | the outer loop, with early exit on a raising record, plus the name filter, returns exactly `Normalized(raw)` |
| TransformProperties.ExtractAllSucceeds | etl_app/transform.py:17-23 | the outer loop gets through the batch iff no record has a `null` name or flags object |
| TransformProperties.ExtractAllRows | etl_app/transform.py:16-55 | when it gets through, `rows` holds one row per record, the i-th built from the i-th record |
| TransformProperties.ExtractAllFirstFault | etl_app/transform.py:17-23 | when it raises, it raises at the first record with a `null` name or flags object, naming the name fault when the name is `null` |
| Transform.ExtractAllStopsAt | etl_app/transform.py:17-23 | a raising record after clean ones is what the whole batch raises, whatever follows it |
| TransformProperties.KeptIndicesIncrease | etl_app/transform.py:57 | the positions kept by the name filter increase strictly, so input order is kept |
| TransformProperties.KeptIndicesExact | etl_app/transform.py:57 | the kept positions are exactly those of the records with `name.common` |
| TransformProperties.DropUnnamedSelects | etl_app/transform.py:57 | `dropna(subset=["name"])` yields exactly the rows at the kept positions, in order |
| TransformProperties.NormalizedIsStableFilter | etl_app/transform.py:16-57 | output is a stable filter of the input: no longer than the input, in input order, with a row iff the record has `name.common`, each row built from its record |
| TransformProperties.NormalizedRowFields | etl_app/transform.py:19-57 | every output row has its record's `name.common` as name; population and area pass through; the flag URL is the flags object's `svg`, absent when either is |
| TransformProperties.IndicesBounded | etl_app/transform.py:57 | a strictly increasing selection of positions is no longer than the input, so the output is never longer than the input |
| TransformProperties.NormalizedErrors | etl_app/transform.py:19-57 | the batch raises `NoNameColumn` iff it is empty; otherwise it raises iff some record has a `null` name or flags object, at the first such record, naming the fault |
| TransformProperties.ListColumn | etl_app/transform.py:22-26 | capital/tld/borders/timezones are `""` iff the key is missing, `null`, `[]` or `[""]`; otherwise they split back into the list, in order, when no element holds a comma |
| TransformProperties.LanguagesColumn | etl_app/transform.py:29-30 | languages is `""` iff the mapping is missing, `null`, empty or its only value is `""`; otherwise it splits back into the mapping's values, never its codes, in mapping order |
| TransformProperties.CurrenciesAppend | etl_app/transform.py:35-42 | one more currency entry adds `"Name (Symbol)"` when both are non-empty, the bare name when the symbol is missing or empty, and nothing when the name is; an added part follows earlier ones after `", "` |
| TransformProperties.CurrencyPartsCount | etl_app/transform.py:35-41 | the currency list has one non-empty part per entry with a non-empty name, hence no more parts than entries |
| TransformProperties.CurrenciesColumn | etl_app/transform.py:33-42 | currencies is `""` iff no entry has a non-empty name; otherwise it splits back into the per-entry parts when none holds a comma |
| Joining.Join | etl_app/transform.py:22-30 | definition of `", ".join`; characterised by JoinLength, JoinAppend, JoinEmptyIff and SplitJoin |
| Joining.Split | etl_app/transform.py:22-30 | `str.split(", ")`, the inverse on non-empty lists of comma-free parts, used to state what the joined columns hold (SplitJoin); always yields at least one piece |
| Json.Truthy | etl_app/transform.py:38-40 | definition of Python truthiness of an optional string (`None` and `""` are falsy); used by CurrencyPart and characterised in CurrenciesAppend and CurrenciesColumn |
| Transform.ListOrEmpty | etl_app/transform.py:22-33 | definition of `item.get(k, []) or []` and `item.get(k) or {}`: the value when present, empty when missing or `null`; characterised by ListColumn, LanguagesColumn and CurrenciesColumn |
| Transform.JoinedList | etl_app/transform.py:22-26 | definition of the capital/tld/borders/timezones columns; characterised by ListColumn |
| TransformProperties.KeptIndices | etl_app/transform.py:57 | definition of the input positions (the frame's index labels) whose rows `dropna(subset=["name"])` keeps, all within the input; characterised by KeptIndicesIncrease, KeptIndicesExact, DropUnnamedSelects and NormalizedIsStableFilter |
| TransformProperties.HasName | etl_app/transform.py:57 | definition of a record whose row `dropna` keeps (`name.common` present); used by KeptIndicesExact and NormalizedIsStableFilter |
| TransformProperties.Clean | etl_app/transform.py:19-23 | definition of a record that does not raise (neither `name` nor `flags` is `null`); used by ExtractAllSucceeds, ExtractAllFirstFault and NormalizedErrors |
| Transform.NameOf | etl_app/transform.py:19 | definition of `item.get("name", {}).get("common")` for a non-null name object; characterised by NormalizedRowFields and KeptIndicesExact |
| Transform.FlagOf | etl_app/transform.py:23 | definition of `item.get("flags", {}).get("svg")` for a non-null flags object; characterised by NormalizedRowFields |
| Transform.Values | etl_app/transform.py:30 | definition of `list(langs.values())`; characterised by ValuesAt |
| Transform.LanguagesOf | etl_app/transform.py:29-30 | definition of the languages column; characterised by LanguagesColumn |
| Transform.CurrencyPart | etl_app/transform.py:36-41 | definition of what one currency entry appends; characterised by CurrenciesAppend |
| Transform.CurrencyParts | etl_app/transform.py:34-41 | definition of `cur_list`; computed by CollectCurrencies, characterised by CurrenciesAppend and CurrencyPartsCount |
| Transform.CurrenciesOf | etl_app/transform.py:33-42 | definition of the currencies column; characterised by CurrenciesAppend and CurrenciesColumn |
| Transform.RowOf | etl_app/transform.py:44-55 | definition of the row dict built for a record; characterised by NormalizedRowFields, ListColumn, LanguagesColumn and CurrenciesColumn |
| Transform.ExtractAll | etl_app/transform.py:16-55 | definition of the `rows` list after the outer loop, or the first record's fault; characterised by ExtractAllSucceeds, ExtractAllRows, ExtractAllFirstFault and ExtractAllStopsAt |
| Transform.DropUnnamed | etl_app/transform.py:57 | definition of `dropna(subset=["name"])`; characterised by DropUnnamedSelects, KeptIndicesIncrease and KeptIndicesExact |
| Transform.Normalized | etl_app/transform.py:6-60 | definition of the result of `transform_countries`; computed by TransformCountries, characterised by NormalizedIsStableFilter, NormalizedRowFields and NormalizedErrors |
| Dashboard.HasSelection | dashboard_app/dashboard_app.py:140 | definition of `rows and dv_selected_rows`; characterised by the border clause of UpdateFlag |
| Dashboard.UrlOf | dashboard_app/dashboard_app.py:144 | definition of `.get("flag_svg_url", "")`: `""` for a missing key, `None` for an explicit null; used by UpdateFlag and SelectionFollowsDisplayedOrder |
| Dashboard.Styled | dashboard_app/dashboard_app.py:138-145 | definition of the base style plus a border; characterised by the style clauses of UpdateFlag |
| Dashboard.PyIndex | dashboard_app/dashboard_app.py:143-144 | Python list indexing: the position is within the list and equals the index modulo the length, so a negative index counts from the end |
| Dashboard.UpdateFlag | dashboard_app/dashboard_app.py:127-145 | base style fields are always kept; border is `"none"` iff rows or selection is null/empty, else `"1px solid #ccc"`; URL is `""` without a selection, else the `flag_svg_url` of the displayed row at the first selected index (`""` if the key is missing) |
| Dashboard.FirstSelectionDecides | dashboard_app/dashboard_app.py:143 | only the first selected index affects the result |
| Dashboard.SelectionFollowsDisplayedOrder | dashboard_app/dashboard_app.py:124-125 | the index refers to the displayed (sorted or filtered) rows: for any view whose position k holds loaded row p[k], index i shows the flag of loaded row p[i] |

## Left out

- Fetching the records (etl_app/extract.py): an HTTP GET with retry and backoff in a foreign library; network I/O.
- Persisting the rows (etl_app/load.py): waiting for the database on a wall clock, creating the table, and the `to_sql` replace-write are database calls.
- Sequencing (etl_app/main.py): glue with no logic of its own.
- `load_data`, `serve_layout` and the Dash application in dashboard_app/dashboard_app.py: database queries and UI construction.
- Logging and environment-variable configuration.
- pandas internals: NaN coercion of `None` population or area. The index labels that `dropna` keeps are not stored on the output rows; `TransformProperties.KeptIndices` gives them, paired with the rows by NormalizedIsStableFilter. The rows are written with `index=False`, so those labels are never persisted.
- Any JSON value whose type differs from the record's datatype is ruled out by the types. This covers a record, `name`, `flags`, `languages`, `currencies` or currency entry that is not an object, where `.get` or `.values()` raises (lines 19, 23, 30, 35-37). It also covers a non-string list element or language value, where the join raises, and a non-string `name.common`. A `capital`, `tld`, `borders` or `timezones` given as a string instead of a list is not modelled either: `", ".join` would join its characters.
- Dashboard.UpdateFlag: an out-of-range selected index raises `IndexError` in the source; the model requires the index to be in range.
- Dashboard.UpdateFlag: a displayed row is modelled by its `flag_svg_url` key only; its other columns are not read by the rule.
