# BigQuery value conversion, theme resolution and navigation link rules, in Dafny

This project models three small cores of the `common-tools` repository and proves properties of them.

- **The SQL-to-BigQuery value converter** of `bigquery-flash-data-sync`
  (`internal/model/parser.go`). `convertValue` takes a value scanned from a SQL row, held in a Go
  `any`, and returns what is handed to BigQuery:
  - nil stays nil;
  - strings and byte slices come out as strings, with invalid UTF-8 removed;
  - signed integers, floats and booleans pass through unchanged;
  - small unsigned integers widen to `int64`;
  - `uint64` and `uint` become `int64` when they fit, and their decimal text otherwise;
  - times become nil, a date, or an RFC 3339 timestamp in UTC.

  `ParseDynamicRow` scans one row into an array and rewrites that array in place, slot by slot.
- **Theme resolution** of the web template (`src/theme.ts`). `tokens(mode)` is the colour table
  of the light or dark mode. `themeSettings(mode)` is the palette, typography, component
  overrides and breakpoints built from that table.
- **The navigation `LinkItem` component** (`src/component/layout/LinkItem.tsx`). It decides the
  row's colours and which of the icon box, the label and the chevron appear.

Files:
- `wrappers.dfy`: the `Option` and `Result` types.
- `utf8.dfy`: byte strings and UTF-8 well-formedness, following the table in section 4 of
  RFC 3629, which is the set Go's `utf8.Valid` accepts. It also holds the sanitiser
  `strings.ToValidUTF8(s, "")`. An independent reference is the encoding of scalar values from
  section 3 of RFC 3629. It is proved to describe exactly the same texts.
- `decimal.dfy`: the `%d` text of a natural number, and a reader for it.
- `gotime.dfy`: the parts of `time.Time` that the converter reads.
- `parser.dfy`: `convertValue`, `formatTimeForBigQuery`, `safeUintToBigQuery` and `ParseDynamicRow`.
- `theme.dfy`: `tokens` and `themeSettings`, as records with named fields.
- `linkitem.dfy`: the LinkItem rules.

Modelling choices:
- Go strings and byte slices are both sequences of bytes.
- Go's `int` and `uint` are taken to be 64 bits wide.
- A `time.Time` is a tuple of three parts: seconds since January 1 of year 1 UTC (Go's own
  epoch), nanoseconds, and the UTC offset of its location at that instant. `Hour`, `Minute` and
  `Second` read the clock in that location, as Go does.
- Three library formatters are parameters of the converter with no interpretation: layout-based
  `Format`, `Format(time.RFC3339Nano)` and `fmt.Sprintf("%v")`. They are passed as a
  `Formatters` record.
- `rows.Columns()` and `rows.Scan` are database I/O. Their results are inputs of `ParseDynamicRow`.
- In the theme, MUI's `alpha(colour, opacity)` is kept as a symbolic `Alpha(colour, percent)`.
- For CSS template strings, only the token that is interpolated is modelled.
- In LinkItem, colours are references into `theme.palette.navigation`. They are resolved against
  the theme palette.

## Model

| member | source | states |
|---|---|---|
| `Utf8.SequenceLength` | bigquery-flash-data-sync/internal/model/parser.go:57-61 | The well-formed sequence found at the front of the input is at most 4 bytes long and never longer than the input; it has length 1 exactly when the first byte is ASCII. |
| `Utf8.ValidIffEncoding` | bigquery-flash-data-sync/internal/model/parser.go:58 | The UTF-8 validity test accepts a text exactly when the text is the concatenated encoding of some Unicode scalar values. |
| `Utf8.EncodeAllRoundTrip` | bigquery-flash-data-sync/internal/model/parser.go:81 | Encoding any scalar values gives valid text, and decoding it gives the same scalar values back. |
| `Utf8.DecodeAllRoundTrip` | bigquery-flash-data-sync/internal/model/parser.go:81 | Valid text is exactly the encoding of the scalar values decoded from it. |
| `Utf8.Valid` | bigquery-flash-data-sync/internal/model/parser.go:58 | The validity test behind `utf8.Valid` (line 58) and `utf8.ValidString` (line 81): the text splits into well-formed sequences of the table of section 4 of RFC 3629. `Utf8.ValidIffEncoding` proves it accepts exactly the concatenated encodings of scalar values. |
| `Utf8.Sanitize` | bigquery-flash-data-sync/internal/model/parser.go:42-47 | The sanitised text is valid UTF-8 and no longer than the input; valid input comes back unchanged. `Utf8.SanitizeValidPrefix` (a valid prefix is kept) and `Utf8.SanitizeDropsIllFormedByte` (a byte that begins no encoded scalar value is deleted alone), together with `Sanitize([]) == []`, fix the result for every input. |
| `Utf8.SanitizeValidPrefix` | bigquery-flash-data-sync/internal/model/parser.go:46 | A valid prefix is kept exactly, and whatever follows it is sanitised on its own. |
| `Utf8.SanitizeDropsStrayByte` | bigquery-flash-data-sync/internal/model/parser.go:46 | A byte that can never start a well-formed sequence (0x80-0xC1 or 0xF5-0xFF) is deleted, and only that byte: the valid text before it is kept and the text after it is sanitised on its own. For example, `41 FF 42` becomes `41 42`. |
| `Utf8.SanitizeDropsIllFormedByte` | bigquery-flash-data-sync/internal/model/parser.go:46 | A byte after valid text that begins the encoding of no scalar value, whatever follows it, is deleted alone. This covers a stray continuation byte, the lead byte of a truncated, overlong or surrogate form, and a byte above F4. The valid text before it is kept and the text after it is sanitised on its own. |
| `Utf8.WellFormedStartIsEncoding` | bigquery-flash-data-sync/internal/model/parser.go:46 | Text that starts with a well-formed sequence starts with the encoding of the scalar value decoded from it. |
| `Utf8.TruncatedLeadDropped` | bigquery-flash-data-sync/internal/model/parser.go:46 | `E2 41` (a lead byte with no continuation) sanitises to `41`: only the lead byte goes. |
| `Utf8.SanitizeDeletes` | bigquery-flash-data-sync/internal/model/parser.go:46 | The sanitiser only deletes bytes. It never inserts, changes or reorders one. |
| `Utf8.SanitizeFixedIffValid` | bigquery-flash-data-sync/internal/model/parser.go:46 | Sanitising leaves a text unchanged if and only if the text is valid UTF-8. |
| `Utf8.SanitizeIdempotent` | bigquery-flash-data-sync/internal/model/parser.go:46 | Sanitising twice gives the same result as sanitising once. |
| `Decimal.Format` | bigquery-flash-data-sync/internal/model/parser.go:111 | The `%d` text is non-empty and made of ASCII digits, with no leading zero. |
| `Decimal.ParseFormat` | bigquery-flash-data-sync/internal/model/parser.go:111 | The decimal text of a number reads back as that number. |
| `Decimal.FormatInjective` | bigquery-flash-data-sync/internal/model/parser.go:111 | Two numbers with the same decimal text are equal, so no value is lost. |
| `Decimal.FormatValid` | bigquery-flash-data-sync/internal/model/parser.go:111 | Decimal text is valid UTF-8. |
| `GoTime.IsZero` | bigquery-flash-data-sync/internal/model/parser.go:96 | `t.IsZero()`: the instant is January 1, year 1, 00:00:00 UTC, whatever the location. |
| `GoTime.Hour` | bigquery-flash-data-sync/internal/model/parser.go:99 | `t.Hour()` in the value's own location lies in 0..23. |
| `GoTime.Minute` | bigquery-flash-data-sync/internal/model/parser.go:99 | `t.Minute()` in the value's own location lies in 0..59. |
| `GoTime.Second` | bigquery-flash-data-sync/internal/model/parser.go:99 | `t.Second()` in the value's own location lies in 0..59. |
| `GoTime.UTC` | bigquery-flash-data-sync/internal/model/parser.go:102 | `t.UTC()` keeps the instant (seconds and nanoseconds) and reads it with offset 0. |
| `GoTime.MidnightIffDayBoundary` | bigquery-flash-data-sync/internal/model/parser.go:99 | Hour, minute, second and nanosecond all read 0 exactly when the local time is a whole number of days and the nanoseconds are 0. |
| `GoTime.ZeroIsMidnightInUTC` | bigquery-flash-data-sync/internal/model/parser.go:96-99 | The zero time would also pass the midnight test in UTC, so the zero test has to come first. |
| `Parser.FormatTimeForBigQuery` | bigquery-flash-data-sync/internal/model/parser.go:95-103 | Nil exactly for the zero time. A non-zero time on a local day boundary with a non-empty date layout is formatted with that layout. Every other non-zero time, including any time when the layout is empty, gives the RFC3339Nano text of the same instant in UTC. |
| `Parser.ZeroTestComesFirst` | bigquery-flash-data-sync/internal/model/parser.go:96-100 | The zero time in UTC passes every clause of the date-only test at line 99 with a non-empty layout, yet it becomes nil, because the zero test at line 96 runs first. |
| `Parser.SafeUintToBigQuery` | bigquery-flash-data-sync/internal/model/parser.go:105-114 | The result is an `int64` exactly when the value is at most 2^63-1, and then it has the same value. Otherwise it is a string of 19 or 20 digits that reads back as the original value. |
| `Parser.OverflowDigits` | bigquery-flash-data-sync/internal/model/parser.go:108-111 | A value above MaxInt64 is written with 19 digits below 10^19 and with 20 digits from 10^19 on. |
| `Parser.TextToBigQuery` | bigquery-flash-data-sync/internal/model/parser.go:57-84 | A byte slice or a string becomes a string that is valid UTF-8 and no longer than the input. Valid input keeps exactly its bytes. Invalid input becomes its sanitised form. |
| `Parser.NumberToBigQuery` | bigquery-flash-data-sync/internal/model/parser.go:64-79 | Signed integers, floats and bools are returned unchanged. An unsigned integer no greater than 2^63-1 becomes an `int64` of equal value. A `uint64` or `uint` goes through `SafeUintToBigQuery`, so a larger one becomes its 19- or 20-digit `%d` text, which reads back as the original value. The result is never nil. |
| `Parser.ConvertValue` | bigquery-flash-data-sync/internal/model/parser.go:51-90 | Every result is a value BigQuery accepts: nil, string, signed integer, float or bool. The result is nil exactly for nil and for the zero time. Byte slices and strings follow `TextToBigQuery`. Signed integers, floats and bools are unchanged. Every unsigned integer that fits, and so every `uint32`, `uint16` and `uint8`, becomes an equal `int64`. A `uint64` or `uint` goes through `SafeUintToBigQuery`, so above 2^63-1 it becomes its 19- or 20-digit `%d` text, which reads back as the original value. Times follow `FormatTimeForBigQuery`, and values of other types become their `%v` text. |
| `Parser.ConvertFixedPoints` | bigquery-flash-data-sync/internal/model/parser.go:51-90 | The converter leaves a value unchanged if and only if the value is a BigQuery value whose string, if it has one, is valid UTF-8. |
| `Parser.ConvertIdempotent` | bigquery-flash-data-sync/internal/model/parser.go:51-90 | Converting a converted value again changes nothing, as long as no library formatter produced invalid UTF-8. |
| `Parser.ConvertedStringsValid` | bigquery-flash-data-sync/internal/model/parser.go:57-84 | Every string the converter builds from a byte slice, a string or an unsigned integer is valid UTF-8. |
| `Parser.ParseDynamicRow` | bigquery-flash-data-sync/internal/model/parser.go:16-40 | A column error gives that error and no row. A scan error, or a row whose length differs from the column count, gives a scan error and no row. Otherwise the row has the given column names and one value per column, and value i is `ConvertValue` of scanned value i. |
| `Theme.TokensFor` | webapps/webapp-template/src/theme.ts:21-233 | `tokens(mode)`: every literal colour of the dark and the light token tables. The lemmas below characterise it: `Theme.SharedTables`, `Theme.UnsetBackgrounds` and `Theme.BackgroundCopied`. |
| `Theme.ThemeSettings` | webapps/webapp-template/src/theme.ts:273-420 | `themeSettings(mode)`: the palette, typography, component overrides and breakpoints built from `TokensFor(mode)`. It is characterised by `Theme.PaletteCarriesTokens`, `Theme.PrimaryMapping`, `Theme.SettingsDistinguishModes`, `Theme.ModeIndependentSettings`, `Theme.ModeDependentOverrides` and `Theme.BreakpointsIncreasing`. |
| `Theme.SharedTables` | webapps/webapp-template/src/theme.ts:49-231 | The neutral, designPrimary, designSecondary and navigation tables are identical in the light and the dark token tables. |
| `Theme.UnsetBackgrounds` | webapps/webapp-template/src/theme.ts:109-223 | `background.dark` and `background.nav` are unset exactly in light mode. |
| `Theme.PrimaryMapping` | webapps/webapp-template/src/theme.ts:281-320 | `palette.primary.main` is primary 100 in dark mode and primary 300 in light mode. `palette.primary.dark` is primary 300 in both modes. |
| `Theme.BackgroundCopied` | webapps/webapp-template/src/theme.ts:300-343 | The palette background entries `main` through `secondaryLight` equal the `background` token entries of the same mode, in both modes. |
| `Theme.PaletteCarriesTokens` | webapps/webapp-template/src/theme.ts:276-351 | The palette records its mode. It passes the neutral, designPrimary, designSecondary, text, border and navigation tables of that mode through unchanged. |
| `Theme.SettingsDistinguishModes` | webapps/webapp-template/src/theme.ts:278 | Different modes give different settings. |
| `Theme.ModeIndependentSettings` | webapps/webapp-template/src/theme.ts:353-418 | Typography, the contained button (`#ff7300`, hover `#e76000`) and the breakpoints are the same for both modes. |
| `Theme.BreakpointsIncreasing` | webapps/webapp-template/src/theme.ts:410-418 | The breakpoints start at xs = 0 and increase strictly through sm, md, lg and xl. |
| `Theme.ModeDependentOverrides` | webapps/webapp-template/src/theme.ts:363-408 | The DataGrid column header uses `alpha(primary 300, 0.9)` in dark mode and `alpha(primary 300, 0.2)` in light mode. The autofill shadow uses grey 700 in dark mode and grey 100 in light mode. |
| `LinkItem.Render` | webapps/webapp-template/src/component/layout/LinkItem.tsx:34-90 | The background is `navigation.clickedBg` if and only if the item is active or expanded; otherwise it is `transparent`. The text colour is `navigation.clicked` if and only if the item is active or expanded; otherwise it is `navigation.link`. The hover pair is always `hoverBg`/`hover`. The 20 px icon box is present if and only if an icon is given. The label is present if and only if `open`. A chevron is present if and only if `hasChildren && open`; it points up if and only if the item is also expanded. |
| `LinkItem.HoverAndRouteInert` | webapps/webapp-template/src/component/layout/LinkItem.tsx:28-35 | Neither `isHovered` nor `route` changes the rendered output. |
| `LinkItem.ColoursModeIndependent` | webapps/webapp-template/src/component/layout/LinkItem.tsx:49-60 | Because the navigation table is shared, a link item resolves to the same four colours under the light and the dark theme. |
| `LinkItem.IdleColours` | webapps/webapp-template/src/component/layout/LinkItem.tsx:49-56 | An item that is neither active nor expanded is drawn with a `transparent` background and the link colour `#ffffff8f`, in either theme. |

## Left out

- Logging: the zap calls in `parser.go` only log and do not change any result. `internal/logger/logger.go` (environment lookup, a `sync.Once` global, zap builders) is not part of this model.
- Database access: `rows.Columns` and `rows.Scan` are I/O. Their outcomes are inputs of `Parser.ParseDynamicRow`. The driver's own conversions are not modelled.
- Floating point: `float64` and `float32` values pass through as opaque bit patterns. The model does no float arithmetic.
- Library formatting: the text produced by `time.Time.Format`, by the RFC3339Nano layout and by `fmt.Sprintf("%v")` is not modelled. The model states which formatter is called, on which instant and with which layout.
- Parser.ConvertIdempotent: requires that the library formatters return valid UTF-8, because the converter does not sanitise their output.
- Go's `int` and `uint` on 32-bit platforms: both are modelled as 64-bit. A 32-bit `uint` always fits in `int64`, so it would take the `int64` branch anyway.
- Time zones: the model takes a location's UTC offset at the instant as given. The zone database is not modelled. A time carries no zone name, so the `layout` and `rfc3339Nano` formatters cannot tell apart two locations that share an offset. Go's `Format` can, for example with an `MST` layout element.
- `src/services/user.api.ts` (the user info query): it is a thin declaration over external HTTP, retry and caching libraries, with no logic of its own.
- UI framework output: in `theme.ts` and `LinkItem.tsx`, the colour arithmetic of `alpha`, CSS text, `theme.spacing`, React element construction and the lucide icons are left out. Only the tokens, sizes and elements chosen are modelled.
- Static style literals of `LinkItem` (flex layout, gaps, padding, border radius, transition) do not depend on the props and are not modelled.
