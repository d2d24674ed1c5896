# OpenFinTech CLI: the table renderer and the `list` row projections

This project models the part of the OpenFinTech command-line client that has
real logic. That part is `printTable`, the renderer that turns rows of
reference data into an aligned text table. Alongside it sit the row
projections of the five `list` commands (banks, currencies, countries,
payment methods, organizations). Each projection flattens one resource
record of an API response into a row for the renderer.

The model has six modules:

- `Text` (`text.dfy`) holds the string primitives the renderer is built from:
  `repeat`, `padEnd`, `substring(0, n)`, `join` and the decimal numeral of a
  count. Lemmas give the length of a join and where each part and each
  separator sits in it.
- `Table` (`table.dfy`) is `printTable` itself, with its output as the
  sequence of messages it would log.
  - `Render` is the specification: the single notice for absent or empty
    data; otherwise the header, its rule, one data line per row, and the footer.
  - `PrintTable` is the imperative version. `ComputeWidths` and
    `MeasureColumn` fill the `widths` dictionary column by column and row
    by row, as the nested `forEach` loops do. The row loop then emits one
    line at a time. Each method is proved equal to the specification.
  - Lemmas state the width rule, the exact content of every cell, the
    rule, the footer and the alignment of header and data lines.
- `Projection` (`projection.dfy`) models the object literals built by the
  `list` commands: `{ id: r.id, name: r.attributes?.name || 'N/A', ... }`.
- `Listing` (`listing.dfy`) gives each command's fields and columns and
  connects the two end to end. Whatever attributes a record lacks, its line
  shows each attribute or `N/A` in the right place, and every listing is
  aligned.
- `UsdExample` (`example.dfy`) works through the `currencies list` output
  for a single US-dollar record, down to the exact lines.
- `Wrappers` (`wrappers.dfy`) holds the `Option` type, used for JavaScript's
  `undefined`/`null`.

Modelling choices:

- A row is a `map<string, string>`. A key that is absent is `undefined`,
  which the renderer reads as `''`.
- A column's optional `format(value, row)` is an optional total function
  of type `(Option<string>, Row) -> string`.
- Lengths count characters.
- The `widths` object is keyed by column key, as in the source. When two
  columns share a key, the later column's width wins for both
  (`Table.SharedKeyMisaligns`). Results that speak of "the width of
  column `j`" assume distinct keys, which every command's column list has
  (`Listing.ResourceShape`).

Facts about the code that shape the model:

- The footer is one logged message, `"\n<n> result(s)"`: a blank line
  followed by the count.
- A header segment is padded but never cut. A heading longer than 50
  characters therefore makes the header longer than the data lines
  (`Table.HeaderAlignment`).
- A record without an `id` shows an empty id cell, not `N/A`, because the
  projection copies `id` unchanged.
- Falsy attribute values also become `N/A`: here that means absent or `''`.
- The width of a column is the longest of its label and its values, so
  for a US-dollar row the Name column is 9 wide (`US Dollar`). The header
  is then `Code  Name       Symbol  Type` (`UsdExample.UsdListing`).

## Model

| member | source | states |
|---|---|---|
| `Table.PrintTable` | src/index.js:38-67 | the lines the renderer logs, emitted row by row, are exactly `Render(data, columns)` |
| `Table.ComputeWidths` | src/index.js:44-52 | the nested loops leave `widths` equal to the column-by-column specification `Widths` |
| `Table.MeasureColumn` | src/index.js:46-51 | after one column's pass its `widths` entry, and no other, holds that column's capped width; the loop starts from the label length and widens by each row's rendered value |
| `Table.TableEmpty` | src/index.js:39-42 | the output is the single `No results found.` notice if and only if `data` is absent or empty |
| `Table.Longest` | src/index.js:46-50 | the uncapped width is at least the label length and at least every row's rendered length |
| `Table.LongestAttained` | src/index.js:46-50 | the uncapped width is the label length or some row's rendered length |
| `Table.ColumnWidth` | src/index.js:45-52 | a column's width is at most 50, at least `min(label, 50)` and `min(value, 50)` for every row, and equals the capped label length or some row's capped value length, which together pin it to `min(50, max(label, values))` |
| `Table.Widths` | src/index.js:44-52 | every column key gets an entry, and no entry exceeds 50 |
| `Table.LastWithKey` | src/index.js:44-52 | finds the last column with a key, which is the column whose width the shared `widths` entry holds |
| `Table.WidthsLookup` | src/index.js:44-52 | a key's entry is the width of the last column with that key, and a key has an entry if and only if some column has it |
| `Table.WidthOfColumn` | src/index.js:45-52 | with distinct keys, each column is drawn with its own computed width |
| `Table.Rendered` | src/index.js:48 | without a format, a cell's text is the row's value for the key, or `''` when the key is absent (`row[key] ?? ''`) |
| `Table.Lookup` | src/index.js:48 | `row[col.key]` is present exactly when the key is in the row, and it is then the row's value |
| `Table.Cell` | src/index.js:61 | a cell has exactly the column width; it is the value plus spaces when the value fits, and the value's prefix when it does not |
| `Table.CellContent` | src/index.js:59-61 | a value of at most 50 characters is shown whole and padded; a longer one is cut to its first 50 characters, never wrapped |
| `Table.CellLengths` | src/index.js:59-61 | every cell of a data line has its column's drawn width |
| `Table.LineLength` | src/index.js:59-62 | a data line is as long as the drawn widths joined by two-space gaps |
| `Table.LineCell` | src/index.js:59-62 | cell `j` of a data line sits after the widths of the earlier columns and their separators, and holds that column's cut-or-padded value |
| `Table.LineSeparator` | src/index.js:62 | every cell but the last is followed by the two-space separator |
| `Table.HeaderSegmentLengths` | src/index.js:54 | a header segment is `max(label length, width)` long; all segments are exactly the drawn widths if and only if every label fits |
| `Table.HeaderSegment` | src/index.js:54 | header segment `j` is the padded label, and when labels fit it starts where cell `j` starts |
| `Table.HeaderAlignment` | src/index.js:54-62 | the header is never shorter than a data line, and is exactly as long if and only if every label fits its width |
| `Table.AlignedTable` | src/index.js:45-62 | with distinct keys, labels fit if and only if none exceeds 50; then the header and every data line are `sum(widths) + 2*(n-1)` long |
| `Table.SharedKeyMisaligns` | src/index.js:44-54 | for example, with columns `Amount` and `A` on one key both take the later column's width, so the longer earlier label overflows the data lines (the general facts are `WidthsLookup` and `HeaderAlignment`) |
| `Table.TableLine` | src/index.js:58-64 | line `2 + i` is row `i`'s data line |
| `Table.TableLayout` | src/index.js:54-64 | a non-empty table has `rows + 3` lines; line 0 is the header and line `2 + i` is row `i`'s line, in input order |
| `Table.TableCell` | src/index.js:58-64 | line `2 + i` holds at column `j`'s offset row `i`'s rendered value cut or padded to the width |
| `Table.RuleAndFooter` | src/index.js:56-66 | line 1 consists solely of `─` and is as long as the header; the last line is a newline, the row count and ` result(s)` |
| `Table.FooterCount` | src/index.js:66 | the number in the footer is all digits and reads back as `data.length` |
| `Text.Repeat` | src/index.js:56 | `'─'.repeat(n)` has length `n` and consists solely of the character |
| `Text.PadEnd` | src/index.js:54 | `padEnd` yields `max(length, n)` characters and never truncates |
| `Text.Prefix` | src/index.js:61 | `substring(0, n)` is the prefix of length `min(length, n)` |
| `Text.JoinLength` | src/index.js:54 | a joined line is as long as its parts plus one separator between each two |
| `Text.JoinedLengthIsSum` | src/index.js:54 | the joined length equals the sum of the parts plus `(n-1)` separators |
| `Text.JoinSegment` | src/index.js:62 | each part of a join appears unchanged at its start offset |
| `Text.JoinSeparator` | src/index.js:62 | every part but the last is followed by the separator |
| `Text.JoinPartAt` | src/index.js:62 | part `j` of a join sits at the offset given by the lengths of the parts before it |
| `Text.JoinSeparatorAt` | src/index.js:62 | the separator after part `j` sits at the offset given by the part lengths |
| `Text.LongerSegmentsLongerJoin` | src/index.js:54-62 | joining segments that are no shorter gives a line that is no shorter, and strictly longer if one segment is |
| `Text.DecimalDigits` | src/index.js:66 | the count's numeral is non-empty, all digits, with no leading zero unless it is 0 |
| `Text.DecimalRoundTrip` | src/index.js:66 | parsing the numeral of a count gives the count back |
| `Projection.AttributeOr` | src/index.js:150 | `attributes?.[name] \|\| 'N/A'` is the attribute when it is present and non-empty, else `N/A`; it is never empty |
| `Projection.Project` | src/index.js:148-153 | a projected row has exactly the id key (when the id is present) and the field keys; every field key holds a non-empty value; the id is kept as given |
| `Projection.ProjectAll` | src/index.js:147-148 | one projected row per record |
| `Projection.ProjectAt` | src/index.js:148-153 | with distinct keys, each field key holds its attribute or `N/A` |
| `Listing.ResourceShape` | src/index.js:148-160 | every command has distinct column keys, distinct field keys, labels of at most 50 characters, no format, and every column key is the id or a projected key |
| `Listing.ListEmpty` | src/index.js:147 | a response without records, and only such a response, logs the single `No results found.` notice |
| `Listing.ListOutput` | src/index.js:147-160 | a `list` action logs the single notice when the response has no records, and otherwise one line per record plus the header, rule and footer; its cells are stated by `ListCell` and its alignment by `ListAligned` |
| `Listing.Fields` | src/index.js:148-153 | every command projects `name` first, never the `id` key, and no key twice |
| `Listing.Columns` | src/index.js:155-160 | every command shows Name as its second column, at least three columns, no key twice, no format and no label longer than 50 |
| `Listing.ProjectedValue` | src/index.js:148-153 | a projected column renders its attribute, or `N/A` |
| `Listing.ListValue` | src/index.js:148-153 | in every command (banks here; the others at lines 218-224, 290-295, 357-361 and 421-425), each projected column renders its attribute, or `N/A` |
| `Listing.ProjectedCell` | src/index.js:148-153 | a projected cell shows the attribute or `N/A`, padded and uncut unless longer than 50; a missing attribute shows `N/A`, which always fits |
| `Listing.IdCell` | src/index.js:149 | the id cell shows the record's id, or only spaces when the record has none |
| `Listing.ListCell` | src/index.js:58-64 | end to end: line `2 + i` holds at column `j`'s offset record `i`'s cell, which is the attribute or `N/A` for a projected column |
| `Listing.ListAligned` | src/index.js:54-62 | every listing's header, rule and data lines have the same length, `sum(widths) + 2*(n-1)` |
| `UsdExample.UsdProjected` | src/index.js:218-224 | the US-dollar record projects to the row with id, name, code, type and symbol |
| `UsdExample.UsdWidths` | src/index.js:45-52 | its columns Code, Name, Symbol and Type are 4, 9, 6 and 4 wide |
| `UsdExample.UsdHeader` | src/index.js:54 | its header is `Code  Name       Symbol  Type` |
| `UsdExample.UsdLine` | src/index.js:59-62 | its data line is `USD   US Dollar  $       fiat` |
| `UsdExample.UsdTable` | src/index.js:38-67 | its table is the header, 29 `─`, the data line and `\n1 result(s)` |
| `UsdExample.UsdListing` | src/index.js:217-231 | `currencies list` logs exactly those four lines for that record |

## Left out

- Colouring and styling of the logged lines are left out; the model holds
  the plain text only.
- `printJson` is left out: it passes the raw response to a foreign JSON
  serializer.
- The `commander` program, its sub-commands and options, and the spinner
  helper `withSpinner` are left out. So are `process.exit` and the error
  messages: this is command wiring, asynchronous I/O and process control.
- The detail views of the `get` commands are left out: each is a fixed
  sequence of `console.log` calls with no logic.
- `src/api.js` is left out: each of its functions is one HTTP GET through
  a foreign library. Its only logic is the default base URL. The
  response's `data` field comes into the model as a parameter (`None` when
  it is absent).
- `src/config.js` is left out: it wraps a durable external key-value
  store.
- The deposit-method, exchanger and merchant-industry resources are left
  out: no `list` command in `src/index.js` renders them as a table.
- `String()` coercion of non-string values is left out. Cell values and
  attributes are strings, so falsy numbers and booleans (`0`, `false`)
  turning into `N/A` is not modelled.
- A column `format` is modelled as a total pure function; one that throws
  or reads other state is not covered.
- Lengths are counted in characters, not in UTF-16 code units as
  JavaScript counts them. Strings outside the Basic Multilingual Plane
  would measure differently.
- Records are assumed to be non-null objects, and a response's `data` an
  array or absent. A `null` record makes `b.id` throw, and a non-array
  `data` makes `.map` throw; the action then prints the error and exits
  with status 1 instead of rendering. That path is not modelled.
- Special object keys such as `__proto__` are left out; the model treats
  them as ordinary keys.
- `Listing.ProjectedCell`: for a missing attribute it states that the value
  is `N/A` and fits its column, rather than spelling out the padded cell.
  The padded form follows from its clause for values of at most 50
  characters.
