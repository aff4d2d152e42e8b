# BaseX: map order updates, JSON serialization, CSV to XQuery, resource paths

A Dafny model of four parts of the BaseX XML database and XQuery processor,
with proofs of what each promises.

- **TrieUpdate** (`trie_update.dfy`, module `TrieUpdates`). Every put or
  remove on an immutable XQuery map records one update. The update remembers
  the predecessor's key-order log, which is absent for empty and singleton
  maps. It builds the successor's log by copy-on-write. The class keeps the
  source's fields and methods. Its methods are proved never to change the
  predecessor's log, and to give the successor a fresh log with the expected
  keys. Lemmas show that the new log lists the keys of the new map exactly
  once, in insertion order.
- **JsonSerializer** (`json_escape.dfy` and `json_serializer.dfy`, modules
  `JsonEscape` and `JsonSerial`). This is the JSON output method of the
  serializer.
  - `JsonEscape` covers how a code point is written (`print`, `fallback`)
    and defines a decoder for JSON string bodies (section 7 of RFC 8259),
    which rejects unescaped control characters.
    Everything `print` writes with escaping on is proved to decode back to
    the original string, except a control character the source writes as
    itself, which the decoder is proved to reject. This includes the `\uXXXX` fallback and the UTF-16
    surrogate pairs of section 2.1 of RFC 2781.
  - `JsonSerial` defines, as functions, what serializing an item, a value,
    a map or an array writes, and which error it raises.
  - The class `JsonSerializer` holds the output, the `sep` flag and the
    nesting level. Its methods do what the source's methods do, loop by
    loop, and are proved to append exactly that text.
  - Lemmas give the error cases both ways:
    - SERDUPL is raised exactly when duplicates are not allowed and a key
      name repeats, and nothing is written for the entry that repeats it.
    - An array member of more than one item raises SERJSONSEQ.
    - Without indentation, the output of a map or an array is the brackets
      around the entries or members, separated by commas.
- **CsvXQueryConverter** (`csv_converter.dfy`, module `CsvXQuery`). The CSV
  parser's callbacks `header`, `record` and `entry` build a map of `names`
  and `records`, which `finish` returns.
  - The converter is a class whose methods are proved to perform one `Step`
    of an event-driven state machine.
  - Lemmas about whole runs prove the following:
    - the header names come out in order;
    - there is one array per record, holding that record's fields;
    - every field appears once, in the order it was read;
    - `names` is present exactly when headers were read.
- **ResourceNode** (`resource_node.dfy`, module `ResourceNodes`). These are
  the static path preparation and the full path of a node in the GUI's
  resource tree: a leading slash, and no trailing slash.

Common definitions:
- `wrappers.dfy` holds the `Option` type.
- Strings are sequences of Unicode scalar values (`char`). The byte arrays
  of the source are their UTF-8 encodings, which the model leaves implicit.

## Model

| member | source | states |
|---|---|---|
| TrieUpdates.TrieUpdate.constructor | basex-core/src/main/java/org/basex/query/value/map/TrieUpdate.java:28-32 | key, value and old order are stored; the new order starts absent |
| TrieUpdates.TrieUpdate.Add | basex-core/src/main/java/org/basex/query/value/map/TrieUpdate.java:38-44 | the new order is a fresh log: the old log plus the new key, or `[old, key]` when the predecessor had no log; the predecessor's log is unchanged; `order()` then lists exactly these keys |
| TrieUpdates.TrieUpdate.Remove | basex-core/src/main/java/org/basex/query/value/map/TrieUpdate.java:50-54 | without an old log nothing changes; otherwise the new order is a fresh copy of the old log without the removed key, the old log is unchanged, and `order()` then lists exactly these keys |
| TrieUpdates.TrieUpdate.Order | basex-core/src/main/java/org/basex/query/value/map/TrieUpdate.java:60-62 | the current order is absent exactly when both logs are; it is the new log when that exists, else the old one |
| TrieUpdates.TrieUpdate.PrepareOld | basex-core/src/main/java/org/basex/query/value/map/TrieUpdate.java:68-72 | true exactly when an old log exists, and then the new order is a fresh copy with the same keys; otherwise the new order is untouched |
| TrieUpdates.AddKeepsTracking | basex-core/src/main/java/org/basex/query/value/map/TrieUpdate.java:38-44 | adding a new key to a map that has a log, or that holds only `old`, gives a duplicate-free log of exactly the new key set; its length is the new size and its last key is the new one |
| TrieUpdates.RemoveKeepsTracking | basex-core/src/main/java/org/basex/query/value/map/TrieUpdate.java:50-54 | removing a key of the map leaves a duplicate-free log of exactly the remaining keys: that key's one position is cut out, the rest keep their order |
| TrieUpdates.RemoveAbsentKeepsOrder | basex-core/src/main/java/org/basex/query/value/map/TrieUpdate.java:50-54 | removing a key the map does not hold leaves the log unchanged |
| JsonEscape.Hex4RoundTrip | basex-core/src/main/java/org/basex/io/serial/json/JsonSerializer.java:189 | four hexadecimal digits of a 16-bit value read back as that value |
| JsonEscape.SurrogatePair | basex-core/src/main/java/org/basex/io/serial/json/JsonSerializer.java:190-197 | a supplementary code point splits into a high surrogate in D800-DBFF and a low one in DC00-DFFF, which combine back to it |
| JsonEscape.FallbackDecodes | basex-core/src/main/java/org/basex/io/serial/json/JsonSerializer.java:184-198 | the fallback's `\uXXXX` escape, or pair of escapes, decodes back to the code point, whatever follows |
| JsonEscape.SpecialDecodes | basex-core/src/main/java/org/basex/io/serial/json/JsonSerializer.java:203-235 | each of the eight special cases of `print` decodes back to its code point, with or without solidus escaping |
| JsonEscape.EncodedDecodes | basex-core/src/main/java/org/basex/io/serial/json/JsonSerializer.java:236-238 | any other code point, written by the fallback or as itself (unless a control character the encoding holds), decodes back to itself |
| JsonEscape.PrintDecodes | basex-core/src/main/java/org/basex/io/serial/json/JsonSerializer.java:200-243 | with escaping on, whatever `print` writes for a code point decodes back to it, whatever the output encoding can hold, unless it is a control character written as itself |
| JsonEscape.EscapedRoundTrip | basex-core/src/main/java/org/basex/io/serial/json/JsonSerializer.java:176-243 | with escaping on, the body of every JSON string written decodes back to the original string, when no control character is written as itself |
| JsonEscape.UnescapedVerbatim | basex-core/src/main/java/org/basex/io/serial/json/JsonSerializer.java:240-242 | with escaping off, a string the encoding can hold is written unchanged |
| JsonEscape.RawControlRejected | basex-core/src/main/java/org/basex/io/serial/json/JsonSerializer.java:236-241 | with escaping on, a control character without a short escape that the encoding holds is written as itself, and no JSON string body starting with it decodes |
| JsonEscape.UnescapedRoundTrip | basex-core/src/main/java/org/basex/io/serial/json/JsonSerializer.java:240-242 | with escaping off, a string without quotation marks, backslashes and control characters written as themselves still decodes back to itself, fallbacks included |
| JsonEscape.FallbackShape | basex-core/src/main/java/org/basex/io/serial/json/JsonSerializer.java:185-198 | a BMP code point is written as `\u` and four hex digits (6 characters); any other as `\u` escapes of its high surrogate (D800-DBFF) and low surrogate (DC00-DFFF), 12 characters |
| JsonEscape.SpecialsWritten | basex-core/src/main/java/org/basex/io/serial/json/JsonSerializer.java:202-235 | with escaping on, backspace, form feed, newline, carriage return, tab, `"` and `\` become a backslash plus the escape letter that stands for them; `/` gets a backslash exactly when solidus escaping is on |
| JsonEscape.UnescapedPrint | basex-core/src/main/java/org/basex/io/serial/json/JsonSerializer.java:240-242 | with escaping off, nothing is escaped: a code point is written as itself when encodable, else by the fallback, whatever solidus escaping says |
| JsonSerial.MakeConfig | basex-core/src/main/java/org/basex/io/serial/json/JsonSerializer.java:50-60 | solidus escaping needs escaping and both solidus options; duplicates are rejected exactly when they are not allowed; the JSON `indent` option overrides the general one when set |
| JsonSerial.EntriesErrorIff | basex-core/src/main/java/org/basex/io/serial/json/JsonSerializer.java:94-110 | when every value serializes, the entries fail exactly when duplicates are rejected and a name repeats or was seen before, and then with SERDUPL |
| JsonSerial.MapErrorIff | basex-core/src/main/java/org/basex/io/serial/json/JsonSerializer.java:90-114 | a map whose values all serialize fails exactly when duplicates are rejected and two keys share a name, and then with SERDUPL |
| JsonSerial.DuplicateStopsBefore | basex-core/src/main/java/org/basex/io/serial/json/JsonSerializer.java:97-102 | with duplicates rejected, the first key name seen before raises SERDUPL with nothing written for its entry: the output is that of the entries before it |
| JsonSerial.MembersJoined | basex-core/src/main/java/org/basex/io/serial/json/JsonSerializer.java:120-126 | without indentation, array members are written one after another, separated by commas |
| JsonSerial.ArrayJoined | basex-core/src/main/java/org/basex/io/serial/json/JsonSerializer.java:116-130 | without indentation, an array whose members serialize is `[`, the members joined by commas, `]`, with no error |
| JsonSerial.MembersStopAt | basex-core/src/main/java/org/basex/io/serial/json/JsonSerializer.java:121-126 | the first failing array member stops the array with its error, after the members before it and its own comma and indentation |
| JsonSerial.ArraySeqError | basex-core/src/main/java/org/basex/io/serial/json/JsonSerializer.java:81-82 | an array member of more than one item raises SERJSONSEQ when the members before it serialize |
| JsonSerial.EntriesJoined | basex-core/src/main/java/org/basex/io/serial/json/JsonSerializer.java:97-110 | without indentation, and with duplicates allowed or all names distinct and not seen before, entries are written as quoted name, colon, value, separated by commas |
| JsonSerial.MapJoined | basex-core/src/main/java/org/basex/io/serial/json/JsonSerializer.java:90-114 | without indentation, and with duplicates allowed or all names distinct, a map whose values serialize is `{`, its entries in key order joined by commas, `}`, with no error |
| JsonSerial.JsonSerializer.constructor | basex-core/src/main/java/org/basex/io/serial/json/JsonSerializer.java:50-60 | a new serializer has the parameters derived from the serialization options (solidus escaping only with escaping on and both solidus options set, duplicates refused when not allowed, the JSON indent option overriding the general one), empty output, no item written and level 0 |
| JsonSerial.JsonSerializer.Serialize | basex-core/src/main/java/org/basex/io/serial/json/JsonSerializer.java:62-74 | a second item without JSON lines raises SERJSON and writes nothing; otherwise a newline if an item was written before, then the item as ItemJson says; after success, an item counts as written |
| JsonSerial.JsonSerializer.SerializeValue | basex-core/src/main/java/org/basex/io/serial/json/JsonSerializer.java:81-85 | more than one item raises SERJSONSEQ; an empty value is written as `null`, a single item as itself; no SERJSON for nested values |
| JsonSerial.JsonSerializer.Function | basex-core/src/main/java/org/basex/io/serial/json/JsonSerializer.java:87-139 | maps and arrays are written as ItemJson says; any other function item raises SERJSONFUNC; the level is restored on success |
| JsonSerial.JsonSerializer.MapEntries | basex-core/src/main/java/org/basex/io/serial/json/JsonSerializer.java:90-114 | appends `{`, the entries, the indentation of the outer level and `}`; a duplicate name or a failing value stops it with that error |
| JsonSerial.JsonSerializer.WriteEntries | basex-core/src/main/java/org/basex/io/serial/json/JsonSerializer.java:94-110 | the key loop appends exactly what EntriesJson gives, checking each name against those written so far |
| JsonSerial.JsonSerializer.WriteEntry | basex-core/src/main/java/org/basex/io/serial/json/JsonSerializer.java:103-108 | one entry appends a comma if one was written before, the indentation, the quoted name, a colon, a space when indenting, and the value |
| JsonSerial.JsonSerializer.ArrayMembers | basex-core/src/main/java/org/basex/io/serial/json/JsonSerializer.java:116-130 | appends `[`, the members, the indentation of the outer level and `]`; a failing member stops it with that error |
| JsonSerial.JsonSerializer.WriteMembers | basex-core/src/main/java/org/basex/io/serial/json/JsonSerializer.java:120-126 | the member loop appends exactly what MembersJson gives |
| JsonSerial.JsonSerializer.WriteMember | basex-core/src/main/java/org/basex/io/serial/json/JsonSerializer.java:122-125 | one member appends a comma if one was written before, the indentation, and the value |
| JsonSerial.JsonSerializer.CloseBracket | basex-core/src/main/java/org/basex/io/serial/json/JsonSerializer.java:112-114 | the level drops by one, then the indentation of that level and the bracket are appended |
| JsonSerial.JsonSerializer.Atomic | basex-core/src/main/java/org/basex/io/serial/json/JsonSerializer.java:141-163 | booleans and numbers are appended as their lexical form, everything else as a JSON string |
| JsonSerial.JsonSerializer.Indent | basex-core/src/main/java/org/basex/io/serial/json/JsonSerializer.java:165-169 | without JSON lines, the base indentation; with JSON lines, one space if indenting, else nothing |
| JsonSerial.JsonSerializer.StringOut | basex-core/src/main/java/org/basex/io/serial/json/JsonSerializer.java:176-182 | appends `"`, what `print` writes for every code point in order, and `"` |
| JsonSerial.JsonSerializer.PrintChar | basex-core/src/main/java/org/basex/io/serial/json/JsonSerializer.java:200-243 | appends what `print` writes for one code point: the escape, the bare `/`, the code point itself, or its fallback |
| JsonSerial.JsonSerializer.Close | basex-core/src/main/java/org/basex/io/serial/json/JsonSerializer.java:245-249 | writes `null` exactly when no item was written and JSON lines are off |
| CsvXQuery.CsvXQueryConverter.constructor | basex-core/src/main/java/org/basex/io/parse/csv/CsvXQueryConverter.java:28-39 | a new converter has no headers, no rows and no current row |
| CsvXQuery.CsvXQueryConverter.Header | basex-core/src/main/java/org/basex/io/parse/csv/CsvXQueryConverter.java:41-44 | the header name is appended to the header list |
| CsvXQuery.CsvXQueryConverter.Record | basex-core/src/main/java/org/basex/io/parse/csv/CsvXQueryConverter.java:46-50 | the current row, if any, is appended to the rows, and an empty row becomes current |
| CsvXQuery.CsvXQueryConverter.Entry | basex-core/src/main/java/org/basex/io/parse/csv/CsvXQueryConverter.java:52-55 | the value is appended to the current row |
| CsvXQuery.CsvXQueryConverter.NameArray | basex-core/src/main/java/org/basex/io/parse/csv/CsvXQueryConverter.java:66-67 | the loop builds the array of all header names, in order |
| CsvXQuery.CsvXQueryConverter.Finish | basex-core/src/main/java/org/basex/io/parse/csv/CsvXQueryConverter.java:61-71 | the pending row is flushed; the result is `names` (only if there are headers) and then `records`, one array per row |
| CsvXQuery.Replay | basex-core/src/main/java/org/basex/io/parse/csv/CsvXQueryConverter.java:41-55 | replaying callbacks in which no entry precedes the first record leaves a current row exactly when a record has started |
| CsvXQuery.Lookup | basex-core/src/main/java/org/basex/io/parse/csv/CsvXQueryConverter.java:68-70 | a key has a value in the result map exactly when an entry with that key is present |
| CsvXQuery.HeadersInOrder | basex-core/src/main/java/org/basex/io/parse/csv/CsvXQueryConverter.java:41-44 | after any run, the header list is exactly the header names, in the order they were read |
| CsvXQuery.FieldsInOrder | basex-core/src/main/java/org/basex/io/parse/csv/CsvXQueryConverter.java:46-55 | the finished rows plus the current row hold exactly the record fields, in the order they were read |
| CsvXQuery.RowPerRecord | basex-core/src/main/java/org/basex/io/parse/csv/CsvXQueryConverter.java:46-50 | after flushing, there is one row per record started |
| CsvXQuery.FlushKeepsFields | basex-core/src/main/java/org/basex/io/parse/csv/CsvXQueryConverter.java:63 | the final flush keeps every field, now in the finished rows |
| CsvXQuery.OutputEntries | basex-core/src/main/java/org/basex/io/parse/csv/CsvXQueryConverter.java:64-70 | `names` is present exactly when there are headers, and holds them; `records` holds the flushed rows; no key occurs twice |
| CsvXQuery.RowsAreRecords | basex-core/src/main/java/org/basex/io/parse/csv/CsvXQueryConverter.java:46-63 | after flushing, the rows are exactly the records read, each holding the fields read after its `record` call and before the next |
| CsvXQuery.RunResult | basex-core/src/main/java/org/basex/io/parse/csv/CsvXQueryConverter.java:41-71 | for a whole run, `names` holds the header names exactly when there were any, and `records` holds one array per record with that record's own fields, in order; together they are all fields in order |
| ResourceNodes.PreparePath | basex-core/src/main/java/org/basex/gui/layout/ResourceNode.java:58-62 | a prepared path is nonempty and starts with a slash |
| ResourceNodes.PrepareParts | basex-core/src/main/java/org/basex/gui/layout/ResourceNode.java:58-62 | after its leading slash, a prepared path is the normalized path with at most its one trailing slash dropped |
| ResourceNodes.PrepareShape | basex-core/src/main/java/org/basex/gui/layout/ResourceNode.java:50-62 | a normalized path not starting with `/` and not ending with `//` is prepared with exactly one leading slash and, unless it is the root, no trailing slash |
| ResourceNodes.FullPath | basex-core/src/main/java/org/basex/gui/layout/ResourceNode.java:68-70 | the full path of a node is a slash followed by the normalized `path/name` with at most one trailing slash dropped |
| ResourceNodes.FullPathShape | basex-core/src/main/java/org/basex/gui/layout/ResourceNode.java:50-70 | when normalization yields no leading slash and no trailing `//`, the full path has exactly one leading slash and, unless it is `/`, no trailing slash |

## Left out

- TrieOrder is not part of this model. Its log is a class with one sequence of keys. `add` appends; `remove` deletes the key wherever it occurs; `copy` makes a fresh log with the same keys.
- The trie nodes and values of a map are out of scope. A map is seen as its key set plus its optional log.
- `TrieUpdate.toString` is out of scope.
- Doubles and floats in `atomic` (JsonSerializer.java:147-154) are left out: floating point. A number is given by its lexical form.
- Items other than null, atomic items, maps, arrays and other function items are left out. Nodes go through the base serializer, which is not part of this model. Both the absent item and the QName `fn:null` are `JNull`.
- Unicode normalization of strings (JsonSerializer.java:178) is taken to be the identity.
- `printChar` of the base serializer is taken to call `print` directly. Character maps are not part of this model.
- The output stream's encoding-aware print is the parameter `encodable`. It writes a code point as itself when the encoding can hold it, and calls the fallback otherwise.
- The base serializer's indentation is the parameter `lineBreak`, used when `indent` is on. When it is off, the base serializer is taken to write nothing for it; JsonSerial.EntriesJoined and JsonSerial.MapJoined rely on this.
- JsonEscape.EscapedRoundTrip: holds only for strings with no control character written as itself. With escaping on, the source writes U+0000 to U+001F other than backspace, tab, newline, form feed and carriage return as themselves when the encoding holds them (RawControlRejected), and section 7 of RFC 8259 does not allow that. The base serializer's `printChar` is taken to pass them through.
- Hexadecimal digits are written in upper case. The conversion routine is not part of this model.
- Byte arrays and their UTF-8 conversions are left implicit: strings are sequences of code points.
- I/O exceptions and the wrapping of QueryException into an I/O exception are left out.
- JsonSerial.JsonSerializer.Serialize: the level and `sep` after an error are not stated, because the error ends serialization.
- JsonSerial.JsonSerializer.SerializeValue: the level and `sep` after an error are not stated, because the error ends serialization.
- JsonSerial.JsonSerializer.Function: the level and `sep` after an error are not stated, because the error ends serialization.
- JsonSerial.JsonSerializer.MapEntries: the level and `sep` after an error are not stated, because the error ends serialization.
- JsonSerial.JsonSerializer.ArrayMembers: the level and `sep` after an error are not stated, because the error ends serialization.
- The CsvConverter base class is not part of this model. Its header list is the field `headers`, and interning tokens (`shared.token`) is taken to be the identity.
- `init` does nothing and is left out.
- The map builder's capacity hint is left out.
- CsvXQuery.CsvXQueryConverter.Entry requires a current row. The source would fail with a null pointer, and the parser always calls `record` first.
- `MetaData.normPath` is not part of this model; it is the parameter `normPath`.
- ResourceNode's Swing tree handling and lazy loading are out of scope: user interface.
