/**
 * The JSON serializer (org.basex.io.serial.json.JsonSerializer): how maps,
 * arrays, atomic items and strings are written to the output, when an error
 * is raised, and how top-level items are separated.
 *
 * The output is the string `out`. The functions below say what one call
 * writes, as an `Emit`: the text written (also when an error interrupts the
 * call, up to that point) and the error raised, if any. The methods of the
 * class JsonSerializer do what the source's methods do, step by step, and
 * are proved to append exactly that text.
 */
module JsonSerial {
  import opened Wrappers
  import opened JsonEscape

  /**
   * Atomic items: booleans, numbers other than doubles and floats (with their
   * lexical form), and everything else, which is written as a JSON string.
   */
  datatype Atomic = ABool(b: bool) | ANumber(lexical: string) | AString(s: string)

  /**
   * Items: JNull stands both for the absent item and for the QName fn:null;
   * OtherFunction is a function item that is neither a map nor an array.
   */
  datatype Item =
    | JNull
    | Atom(a: Atomic)
    | MapItem(entries: seq<Entry>)
    | ArrayItem(members: seq<Value>)
    | OtherFunction(typeName: string)

  /** A map entry, in the order the map lists its keys. */
  datatype Entry = Entry(key: Atomic, value: Value)

  /** A value is a sequence of items. */
  datatype Value = Value(items: seq<Item>)

  datatype JsonError =
    | SerJson                        // a second top-level item without JSON lines
    | SerJsonSeq                     // a value of more than one item
    | SerDupl(name: string)          // a repeated map key when duplicates are not allowed
    | SerJsonFunc(typeName: string)  // a function item that is neither a map nor an array

  /** What one call writes, and the error it raises, if any. */
  datatype Emit = Emit(text: string, err: Option<JsonError>)

  /**
   * The serialization parameters the serializer reads. `encodable` says which
   * code points the output encoding holds; `lineBreak` is what the base
   * serializer's indentation writes before a line at a given nesting level.
   */
  datatype Config = Config(
    escape: bool,
    escapeSolidus: bool,
    lines: bool,
    nodups: bool,
    indent: bool,
    encodable: char -> bool,
    lineBreak: nat -> string)

  /**
   * The parameters as the constructor derives them from the JSON options
   * (`escape`, `escape-solidus`, `indent`) and the serialization parameters
   * (`escape-solidus`, `allow-duplicate-names`, `json-lines`, `indent`).
   */
  function MakeConfig(escape: bool, jsonEscapeSolidus: bool, escapeSolidus: bool,
                      allowDuplicateNames: bool, jsonLines: bool,
                      jsonIndent: Option<bool>, indent: bool,
                      encodable: char -> bool, lineBreak: nat -> string): (c: Config)
    ensures c.escapeSolidus <==> escape && jsonEscapeSolidus && escapeSolidus
    ensures c.escapeSolidus ==> c.escape
    ensures c.nodups <==> !allowDuplicateNames
    ensures c.indent == (if jsonIndent.Some? then jsonIndent.value else indent)
  {
    Config(escape, escape && jsonEscapeSolidus && escapeSolidus, jsonLines,
           !allowDuplicateNames, if jsonIndent.Some? then jsonIndent.value else indent,
           encodable, lineBreak)
  }

  /** The string value of an atomic item, as used for a map key. */
  function KeyName(a: Atomic): string {
    match a
    case ABool(b) => if b then "true" else "false"
    case ANumber(lexical) => lexical
    case AString(s) => s
  }

  /** A JSON string: quotation marks around what `print` writes for each code point. */
  function StringJson(cfg: Config, s: string): string {
    "\"" + PrintAll(s, cfg.escape, cfg.escapeSolidus, cfg.encodable) + "\""
  }

  /** An atomic item: booleans and numbers as they are, everything else as a string. */
  function AtomJson(cfg: Config, a: Atomic): string {
    match a
    case ABool(_) => KeyName(a)
    case ANumber(_) => KeyName(a)
    case AString(s) => StringJson(cfg, s)
  }

  /** What `indent()` writes at a nesting level. */
  function IndentText(cfg: Config, level: nat): string {
    if !cfg.lines then (if cfg.indent then cfg.lineBreak(level) else "")
    else if cfg.indent then " " else ""
  }

  /** `text` written before what `e` writes. */
  function Then(text: string, e: Emit): Emit {
    Emit(text + e.text, e.err)
  }

  /** `e` followed by `text`, unless `e` raised an error. */
  function Closed(e: Emit, text: string): Emit {
    if e.err.Some? then e else Emit(e.text + text, None)
  }

  /** What serializing an item writes, at a nesting level. */
  function ItemJson(cfg: Config, level: nat, it: Item): Emit
    decreases !it.JNull?, it, 1
  {
    match it
    case JNull => Emit("null", None)
    case Atom(a) => Emit(AtomJson(cfg, a), None)
    case MapItem(es) =>
      Closed(Then("{", EntriesJson(cfg, level + 1, es, {}, false)), IndentText(cfg, level) + "}")
    case ArrayItem(ms) =>
      Closed(Then("[", MembersJson(cfg, level + 1, ms, false)), IndentText(cfg, level) + "]")
    case OtherFunction(t) => Emit("", Some(SerJsonFunc(t)))
  }

  /** What serializing a value writes: at most one item is allowed, none is `null`. */
  function ValueJson(cfg: Config, level: nat, v: Value): Emit
    decreases true, v, 2
  {
    if |v.items| > 1 then Emit("", Some(SerJsonSeq))
    else ItemJson(cfg, level, if v.items == [] then JNull else v.items[0])
  }

  /** What is written before the value of a map entry. */
  function EntryHead(cfg: Config, level: nat, name: string, started: bool): string {
    (if started then "," else "") + IndentText(cfg, level) + StringJson(cfg, name) + ":" +
    (if cfg.indent then " " else "")
  }

  /** What one map entry writes: comma, indentation, quoted name, colon, value. */
  function EntryJson(cfg: Config, level: nat, e: Entry, started: bool): Emit
    decreases true, e, 3
  {
    Then(EntryHead(cfg, level, KeyName(e.key), started), ValueJson(cfg, level, e.value))
  }

  /**
   * What the entries of a map write; `seen` holds the names written so far
   * when duplicates are not allowed, `started` whether an entry was written.
   */
  function EntriesJson(cfg: Config, level: nat, es: seq<Entry>, seen: set<string>, started: bool): Emit
    decreases true, es, 0
  {
    if es == [] then Emit("", None)
    else
      var name := KeyName(es[0].key);
      if cfg.nodups && name in seen then Emit("", Some(SerDupl(name)))
      else
        var e := EntryJson(cfg, level, es[0], started);
        if e.err.Some? then e
        else Then(e.text, EntriesJson(cfg, level, es[1..], if cfg.nodups then seen + {name} else seen, true))
  }

  /** What one array member writes: comma, indentation, value. */
  function MemberJson(cfg: Config, level: nat, m: Value, started: bool): Emit
    decreases true, m, 3
  {
    Then((if started then "," else "") + IndentText(cfg, level), ValueJson(cfg, level, m))
  }

  /** What the members of an array write. */
  function MembersJson(cfg: Config, level: nat, ms: seq<Value>, started: bool): Emit
    decreases true, ms, 0
  {
    if ms == [] then Emit("", None)
    else
      var e := MemberJson(cfg, level, ms[0], started);
      if e.err.Some? then e
      else Then(e.text, MembersJson(cfg, level, ms[1..], true))
  }

  // ---------------------------------------------------------------------------
  // Properties of the output

  /** No two entries of a map have the same key name. */
  predicate DistinctNames(es: seq<Entry>) {
    forall i, j :: 0 <= i < j < |es| ==> KeyName(es[i].key) != KeyName(es[j].key)
  }

  /** Every entry's value serializes without error. */
  predicate ValuesOk(cfg: Config, level: nat, es: seq<Entry>) {
    forall i :: 0 <= i < |es| ==> ValueJson(cfg, level, es[i].value).err.None?
  }

  /** No entry's key name is among `seen`. */
  predicate NamesFresh(es: seq<Entry>, seen: set<string>) {
    forall i :: 0 <= i < |es| ==> KeyName(es[i].key) !in seen
  }

  /**
   * Past a first entry whose name is new, the names are distinct and new
   * exactly when the remaining ones are, counting the first as seen.
   */
  lemma NamesStep(es: seq<Entry>, seen: set<string>)
    requires es != [] && KeyName(es[0].key) !in seen
    ensures (DistinctNames(es) && NamesFresh(es, seen)) <==>
      (DistinctNames(es[1..]) && NamesFresh(es[1..], seen + {KeyName(es[0].key)}))
  {
    var rest, seen' := es[1..], seen + {KeyName(es[0].key)};
    if DistinctNames(es) && NamesFresh(es, seen) {
      forall i, j | 0 <= i < j < |rest| ensures KeyName(rest[i].key) != KeyName(rest[j].key) {
        assert rest[i] == es[i + 1] && rest[j] == es[j + 1];
      }
      forall i | 0 <= i < |rest| ensures KeyName(rest[i].key) !in seen' {
        assert rest[i] == es[i + 1];
      }
    }
    if DistinctNames(rest) && NamesFresh(rest, seen') {
      forall i, j | 0 <= i < j < |es| ensures KeyName(es[i].key) != KeyName(es[j].key) {
        assert es[j] == rest[j - 1];
        if i > 0 { assert es[i] == rest[i - 1]; }
      }
      forall i | 0 <= i < |es| ensures KeyName(es[i].key) !in seen {
        if i > 0 { assert es[i] == rest[i - 1]; }
      }
    }
  }

  /**
   * When all entry values serialize, the entries fail exactly when
   * duplicates are not allowed and a name repeats or was seen before, and
   * the only error they raise then is SERDUPL.
   */
  lemma {:induction false} EntriesErrorIff(cfg: Config, level: nat, es: seq<Entry>, seen: set<string>, started: bool)
    requires ValuesOk(cfg, level, es)
    ensures EntriesJson(cfg, level, es, seen, started).err.None? <==>
      (!cfg.nodups || (DistinctNames(es) && NamesFresh(es, seen)))
    ensures EntriesJson(cfg, level, es, seen, started).err.Some? ==>
      EntriesJson(cfg, level, es, seen, started).err.value.SerDupl?
    decreases |es|
  {
    if es != [] {
      var name := KeyName(es[0].key);
      var seen' := if cfg.nodups then seen + {name} else seen;
      var rest := es[1..];
      assert ValuesOk(cfg, level, rest) by {
        forall i | 0 <= i < |rest| ensures ValueJson(cfg, level, rest[i].value).err.None? {
          assert rest[i] == es[i + 1];
        }
      }
      assert ValueJson(cfg, level, es[0].value).err.None?;
      EntriesErrorIff(cfg, level, rest, seen', true);
      if cfg.nodups && name !in seen {
        NamesStep(es, seen);
      }
    }
  }

  /**
   * A map whose values all serialize fails exactly when duplicates are not
   * allowed and two keys have the same name, and then with SERDUPL.
   */
  lemma MapErrorIff(cfg: Config, level: nat, es: seq<Entry>)
    requires ValuesOk(cfg, level + 1, es)
    ensures ItemJson(cfg, level, MapItem(es)).err.None? <==> (!cfg.nodups || DistinctNames(es))
    ensures ItemJson(cfg, level, MapItem(es)).err.Some? ==>
      ItemJson(cfg, level, MapItem(es)).err.value.SerDupl?
  {
    EntriesErrorIff(cfg, level + 1, es, {}, false);
  }

  /**
   * When duplicates are not allowed, a key name that was seen before, or
   * that repeats an earlier entry's, raises SERDUPL before anything is
   * written for its entry: the output is that of the entries before it.
   */
  lemma {:induction false} DuplicateStopsBefore(cfg: Config, level: nat, es: seq<Entry>, seen: set<string>,
                                                started: bool, i: nat)
    requires cfg.nodups && i < |es|
    requires ValuesOk(cfg, level, es[..i]) && DistinctNames(es[..i]) && NamesFresh(es[..i], seen)
    requires KeyName(es[i].key) in seen || exists j :: 0 <= j < i && KeyName(es[j].key) == KeyName(es[i].key)
    ensures EntriesJson(cfg, level, es, seen, started) ==
      Emit(EntriesJson(cfg, level, es[..i], seen, started).text, Some(SerDupl(KeyName(es[i].key))))
    decreases i
  {
    if i > 0 {
      var pre, rest := es[..i], es[1..];
      var n0 := KeyName(es[0].key);
      var seen' := seen + {n0};
      assert pre[0] == es[0];
      assert n0 !in seen;
      assert ValueJson(cfg, level, es[0].value).err.None?;
      assert pre[1..] == rest[..i - 1];
      NamesStep(pre, seen);
      var tail := rest[..i - 1];
      assert ValuesOk(cfg, level, tail) by {
        forall k | 0 <= k < |tail| ensures ValueJson(cfg, level, tail[k].value).err.None? {
          assert tail[k] == pre[k + 1];
        }
      }
      assert rest[i - 1] == es[i];
      var name := KeyName(es[i].key);
      assert name in seen' || exists j :: 0 <= j < i - 1 && KeyName(rest[j].key) == name by {
        if name !in seen {
          var j :| 0 <= j < i && KeyName(es[j].key) == name;
          if j > 0 {
            assert rest[j - 1] == es[j];
          }
        }
      }
      DuplicateStopsBefore(cfg, level, rest, seen', true, i - 1);
    }
  }

  /**
   * The first array member that fails stops the array with its error; the
   * output is that of the members before it, then the failing member's
   * comma, indentation and partial text.
   */
  lemma {:induction false} MembersStopAt(cfg: Config, level: nat, ms: seq<Value>, started: bool, i: nat)
    requires i < |ms|
    requires forall j :: 0 <= j < i ==> ValueJson(cfg, level, ms[j]).err.None?
    requires ValueJson(cfg, level, ms[i]).err.Some?
    ensures MembersJson(cfg, level, ms, started).err == ValueJson(cfg, level, ms[i]).err
    ensures MembersJson(cfg, level, ms, started).text ==
      MembersJson(cfg, level, ms[..i], started).text + MemberJson(cfg, level, ms[i], started || i > 0).text
    decreases i
  {
    if i == 0 {
      assert ms[..0] == [];
      AppendEmpty(MemberJson(cfg, level, ms[0], started).text);
    } else {
      var pre, rest := ms[..i], ms[1..];
      assert pre[0] == ms[0] && pre[1..] == rest[..i - 1] && rest[i - 1] == ms[i];
      assert ValueJson(cfg, level, ms[0]).err.None?;
      forall j | 0 <= j < i - 1 ensures ValueJson(cfg, level, rest[j]).err.None? {
        assert rest[j] == ms[j + 1];
      }
      MembersStopAt(cfg, level, rest, true, i - 1);
      var head := MemberJson(cfg, level, ms[0], started).text;
      AppendAssoc(head, MembersJson(cfg, level, rest[..i - 1], true).text, MemberJson(cfg, level, ms[i], true).text);
    }
  }

  /**
   * An array member holding more than one item raises SERJSONSEQ, unless an
   * earlier member already failed.
   */
  lemma ArraySeqError(cfg: Config, level: nat, ms: seq<Value>, i: nat)
    requires i < |ms| && |ms[i].items| > 1
    requires forall j :: 0 <= j < i ==> ValueJson(cfg, level + 1, ms[j]).err.None?
    ensures ItemJson(cfg, level, ArrayItem(ms)).err == Some(SerJsonSeq)
  {
    MembersStopAt(cfg, level + 1, ms, false, i);
  }

  /** Parts joined by commas. */
  function Join(parts: seq<string>): string {
    if parts == [] then ""
    else if |parts| == 1 then parts[0]
    else parts[0] + "," + Join(parts[1..])
  }

  /** The texts the members of an array write. */
  function MemberTexts(cfg: Config, level: nat, ms: seq<Value>): (r: seq<string>)
    ensures |r| == |ms|
  {
    if ms == [] then [] else [ValueJson(cfg, level, ms[0]).text] + MemberTexts(cfg, level, ms[1..])
  }

  /** The texts the entries of a map write: the quoted name, a colon, the value. */
  function EntryTexts(cfg: Config, level: nat, es: seq<Entry>): (r: seq<string>)
    ensures |r| == |es|
  {
    if es == [] then []
    else [StringJson(cfg, KeyName(es[0].key)) + ":" + ValueJson(cfg, level, es[0].value).text] +
         EntryTexts(cfg, level, es[1..])
  }

  /** Joining a first part to further parts puts a comma between them. */
  lemma JoinCons(x: string, parts: seq<string>)
    ensures Join([x] + parts) == x + (if parts == [] then "" else "," + Join(parts))
  {
    assert ([x] + parts)[0] == x && ([x] + parts)[1..] == parts;
    if parts == [] {
      assert x + "" == x;
    } else {
      AppendAssoc(x, ",", Join(parts));
    }
  }

  /** Without indentation, array members are written one after the other, separated by commas. */
  lemma {:induction false} MembersJoined(cfg: Config, level: nat, ms: seq<Value>, started: bool)
    requires !cfg.indent
    requires forall i :: 0 <= i < |ms| ==> ValueJson(cfg, level, ms[i]).err.None?
    ensures MembersJson(cfg, level, ms, started) ==
      Emit((if started && ms != [] then "," else "") + Join(MemberTexts(cfg, level, ms)), None)
  {
    if ms != [] {
      var comma := if started then "," else "";
      var v := ValueJson(cfg, level, ms[0]);
      assert v.err.None?;
      forall i | 0 <= i < |ms[1..]| ensures ValueJson(cfg, level, ms[1..][i]).err.None? {
        assert ms[1..][i] == ms[i + 1];
      }
      MembersJoined(cfg, level, ms[1..], true);
      var texts := MemberTexts(cfg, level, ms[1..]);
      assert MemberTexts(cfg, level, ms) == [v.text] + texts;
      JoinCons(v.text, texts);
      assert MemberJson(cfg, level, ms[0], started) == Emit(comma + v.text, None);
      var tail := if texts == [] then "" else "," + Join(texts);
      assert MembersJson(cfg, level, ms[1..], true) == Emit(tail, None);
      assert MembersJson(cfg, level, ms, started) == Emit(comma + v.text + tail, None);
      AppendAssoc(comma, v.text, tail);
    }
  }

  /**
   * Without indentation, an array whose members all serialize is written as
   * `[`, the members separated by commas, `]`.
   */
  lemma ArrayJoined(cfg: Config, level: nat, ms: seq<Value>)
    requires !cfg.indent
    requires forall i :: 0 <= i < |ms| ==> ValueJson(cfg, level + 1, ms[i]).err.None?
    ensures ItemJson(cfg, level, ArrayItem(ms)) == Emit("[" + Join(MemberTexts(cfg, level + 1, ms)) + "]", None)
  {
    MembersJoined(cfg, level + 1, ms, false);
    var j := Join(MemberTexts(cfg, level + 1, ms));
    AppendEmpty(j);
    AppendEmpty("]");
    assert IndentText(cfg, level) == "";
    assert MembersJson(cfg, level + 1, ms, false) == Emit(j, None);
  }

  /**
   * Without indentation, map entries are written one after the other,
   * separated by commas, when duplicates are allowed or every name is new.
   */
  lemma {:induction false} EntriesJoined(cfg: Config, level: nat, es: seq<Entry>, seen: set<string>, started: bool)
    requires !cfg.indent
    requires !cfg.nodups || (DistinctNames(es) && NamesFresh(es, seen))
    requires ValuesOk(cfg, level, es)
    ensures EntriesJson(cfg, level, es, seen, started) ==
      Emit((if started && es != [] then "," else "") + Join(EntryTexts(cfg, level, es)), None)
  {
    if es != [] {
      var comma := if started then "," else "";
      var name := KeyName(es[0].key);
      var seen' := if cfg.nodups then seen + {name} else seen;
      var v := ValueJson(cfg, level, es[0].value);
      assert v.err.None?;
      assert !cfg.nodups || name !in seen;
      assert ValuesOk(cfg, level, es[1..]) by {
        forall i | 0 <= i < |es[1..]| ensures ValueJson(cfg, level, es[1..][i].value).err.None? {
          assert es[1..][i] == es[i + 1];
        }
      }
      if cfg.nodups {
        NamesStep(es, seen);
      }
      EntriesJoined(cfg, level, es[1..], seen', true);
      var texts := EntryTexts(cfg, level, es[1..]);
      var first := StringJson(cfg, name) + ":" + v.text;
      assert EntryTexts(cfg, level, es) == [first] + texts;
      JoinCons(first, texts);
      var sj := StringJson(cfg, name);
      assert IndentText(cfg, level) == "";
      AppendEmpty(comma);
      AppendEmpty(comma + sj + ":");
      assert EntryHead(cfg, level, name, started) == comma + sj + ":";
      Assoc3(comma, sj, ":", v.text);
      assert EntryJson(cfg, level, es[0], started) == Emit(comma + first, None);
      var tail := if texts == [] then "" else "," + Join(texts);
      assert EntriesJson(cfg, level, es[1..], seen', true) == Emit(tail, None);
      assert EntriesJson(cfg, level, es, seen, started) == Emit(comma + first + tail, None);
      AppendAssoc(comma, first, tail);
      assert Join(EntryTexts(cfg, level, es)) == first + tail;
    }
  }

  /**
   * Without indentation, a map whose values all serialize, and whose key
   * names are distinct when duplicates are not allowed, is written as `{`,
   * the entries in key order separated by commas, `}`.
   */
  lemma MapJoined(cfg: Config, level: nat, es: seq<Entry>)
    requires !cfg.indent
    requires !cfg.nodups || DistinctNames(es)
    requires ValuesOk(cfg, level + 1, es)
    ensures ItemJson(cfg, level, MapItem(es)) == Emit("{" + Join(EntryTexts(cfg, level + 1, es)) + "}", None)
  {
    assert NamesFresh(es, {});
    EntriesJoined(cfg, level + 1, es, {}, false);
    var j := Join(EntryTexts(cfg, level + 1, es));
    AppendEmpty(j);
    AppendEmpty("}");
    assert IndentText(cfg, level) == "";
    assert EntriesJson(cfg, level + 1, es, {}, false) == Emit(j, None);
  }

  /** Appending nothing, or appending to nothing, changes nothing. */
  lemma AppendEmpty(a: string)
    ensures a + "" == a && "" + a == a
  {
  }

  /** Three pieces appended one by one are their concatenation appended at once. */
  lemma Assoc3(o: string, a: string, b: string, c: string)
    ensures o + a + b + c == o + (a + b + c)
  {
    AppendAssoc(o, a, b);
    AppendAssoc(o, a + b, c);
  }

  /** Five pieces appended one by one are their concatenation appended at once. */
  lemma Assoc5(o: string, a: string, b: string, c: string, d: string, e: string)
    ensures o + a + b + c + d + e == o + (a + b + c + d + e)
  {
    AppendAssoc(o, a, b);
    AppendAssoc(o, a + b, c);
    AppendAssoc(o, a + b + c, d);
    AppendAssoc(o, a + b + c + d, e);
  }

  /** `a` and then `b` written before what `e` writes. */
  lemma ThenThen(a: string, b: string, e: Emit)
    ensures Then(a, Then(b, e)) == Then(a + b, e)
  {
    AppendAssoc(a, b, e.text);
  }

  /** The entries from index `i` on: a duplicate name, or the entry at `i` and those after it. */
  lemma EntriesStep(cfg: Config, level: nat, es: seq<Entry>, i: nat, seen: set<string>, started: bool)
    requires i < |es|
    ensures EntriesJson(cfg, level, es[i..], seen, started) ==
      var name := KeyName(es[i].key);
      if cfg.nodups && name in seen then Emit("", Some(SerDupl(name)))
      else
        var e := EntryJson(cfg, level, es[i], started);
        if e.err.Some? then e
        else Then(e.text, EntriesJson(cfg, level, es[i + 1..], if cfg.nodups then seen + {name} else seen, true))
  {
    assert es[i..][0] == es[i] && es[i..][1..] == es[i + 1..];
  }

  /** The members from index `i` on: the member at `i` and those after it. */
  lemma MembersStep(cfg: Config, level: nat, ms: seq<Value>, i: nat, started: bool)
    requires i < |ms|
    ensures MembersJson(cfg, level, ms[i..], started) ==
      var e := MemberJson(cfg, level, ms[i], started);
      if e.err.Some? then e else Then(e.text, MembersJson(cfg, level, ms[i + 1..], true))
  {
    assert ms[i..][0] == ms[i] && ms[i..][1..] == ms[i + 1..];
  }

  /**
   * The serializer: the output written so far, whether an item was written
   * (`sep`), and the nesting level.
   */
  class JsonSerializer {
    const cfg: Config
    var out: string
    var sep: bool
    var level: nat

    /** A serializer for the given options; its parameters are derived as MakeConfig says. */
    constructor (escape: bool, jsonEscapeSolidus: bool, escapeSolidus: bool,
                 allowDuplicateNames: bool, jsonLines: bool,
                 jsonIndent: Option<bool>, indent: bool,
                 encodable: char -> bool, lineBreak: nat -> string)
      ensures cfg == MakeConfig(escape, jsonEscapeSolidus, escapeSolidus, allowDuplicateNames,
                                jsonLines, jsonIndent, indent, encodable, lineBreak)
      ensures cfg.escapeSolidus ==> cfg.escape
      ensures out == "" && !sep && level == 0
    {
      cfg := MakeConfig(escape, jsonEscapeSolidus, escapeSolidus, allowDuplicateNames,
                        jsonLines, jsonIndent, indent, encodable, lineBreak);
      out := "";
      sep := false;
      level := 0;
    }

    /**
     * Serializes an item. A second item raises SERJSON unless JSON lines are
     * on, in which case a newline comes first.
     */
    method Serialize(item: Item) returns (err: Option<JsonError>)
      modifies this
      decreases !item.JNull?, item, 2
      ensures old(sep) && !cfg.lines ==>
        err == Some(SerJson) && out == old(out) && sep == old(sep) && level == old(level)
      ensures !(old(sep) && !cfg.lines) ==>
        out == old(out) + (if old(sep) then "\n" else "") + ItemJson(cfg, old(level), item).text &&
        err == ItemJson(cfg, old(level), item).err
      ensures err.None? ==> sep && level == old(level)
    {
      if sep {
        if !cfg.lines {
          return Some(SerJson);
        }
        out := out + "\n";
      } else {
        AppendEmpty(out);
      }
      if item.JNull? {
        out := out + "null";
        err := None;
      } else if item.Atom? {
        Atomic(item.a);
        err := None;
      } else {
        err := Function(item);
        if err.Some? {
          return;
        }
      }
      sep := true;
    }

    /** Serializes a value: more than one item raises SERJSONSEQ, none writes `null`. */
    method SerializeValue(v: Value) returns (err: Option<JsonError>)
      modifies this
      decreases true, v, 3
      ensures out == old(out) + ValueJson(cfg, old(level), v).text
      ensures err == ValueJson(cfg, old(level), v).err
      ensures err.None? ==> sep && level == old(level)
    {
      if |v.items| > 1 {
        return Some(SerJsonSeq);
      }
      sep := false;
      err := Serialize(if v.items == [] then JNull else v.items[0]);
    }

    /**
     * Serializes a function item: a map as `{`, its entries in key order,
     * `}`; an array as `[`, its members, `]`; anything else raises SERJSONFUNC.
     */
    method Function(item: Item) returns (err: Option<JsonError>)
      requires item.MapItem? || item.ArrayItem? || item.OtherFunction?
      modifies this
      decreases true, item, 1
      ensures out == old(out) + ItemJson(cfg, old(level), item).text
      ensures err == ItemJson(cfg, old(level), item).err
      ensures err.None? ==> sep && level == old(level)
    {
      match item
      case MapItem(es) =>
        err := MapEntries(es);
      case ArrayItem(ms) =>
        err := ArrayMembers(ms);
      case OtherFunction(t) =>
        return Some(SerJsonFunc(t));
    }

    /** The map branch of `Function`. */
    method MapEntries(es: seq<Entry>) returns (err: Option<JsonError>)
      modifies this
      decreases true, MapItem(es), 0
      ensures out == old(out) + ItemJson(cfg, old(level), MapItem(es)).text
      ensures err == ItemJson(cfg, old(level), MapItem(es)).err
      ensures err.None? ==> sep && level == old(level)
    {
      ghost var inner := EntriesJson(cfg, level + 1, es, {}, false);
      assert ItemJson(cfg, level, MapItem(es)) == Closed(Then("{", inner), IndentText(cfg, level) + "}");
      level := level + 1;
      out := out + "{";
      err := WriteEntries(es);
      if err.Some? {
        AppendAssoc(old(out), "{", EntriesJson(cfg, level, es, {}, false).text);
        return;
      }
      ghost var body := EntriesJson(cfg, level, es, {}, false).text;
      CloseBracket("}");
      Assoc3(old(out), "{", body, IndentText(cfg, old(level)) + "}");
      sep := true;
    }

    /**
     * The entries of a map, one after the other; when duplicates are not
     * allowed, the names written so far are collected and a repeated one
     * raises SERDUPL.
     */
    method WriteEntries(es: seq<Entry>) returns (err: Option<JsonError>)
      modifies this
      decreases true, es, 1
      ensures out == old(out) + EntriesJson(cfg, old(level), es, {}, false).text
      ensures err == EntriesJson(cfg, old(level), es, {}, false).err
      ensures err.None? ==> level == old(level)
    {
      ghost var whole := EntriesJson(cfg, level, es, {}, false);
      ghost var written := "";
      var s := false;
      var names: set<string> := {};
      var i := 0;
      while i < |es|
        invariant 0 <= i <= |es|
        invariant level == old(level)
        invariant s == (i > 0)
        invariant out == old(out) + written
        invariant whole == Then(written, EntriesJson(cfg, level, es[i..], names, s))
      {
        EntriesStep(cfg, level, es, i, names, s);
        var name := KeyName(es[i].key);
        if cfg.nodups {
          if name in names {
            return Some(SerDupl(name));
          }
          names := names + {name};
        }
        ghost var e := EntryJson(cfg, level, es[i], s);
        err := WriteEntry(es[i], s);
        AppendAssoc(old(out), written, e.text);
        ThenThen(written, e.text, EntriesJson(cfg, level, es[i + 1..], names, true));
        written := written + e.text;
        if err.Some? {
          return;
        }
        s := true;
        i := i + 1;
      }
      err := None;
    }

    /** One entry of a map: comma, indentation, quoted name, colon, value. */
    method WriteEntry(e: Entry, s: bool) returns (err: Option<JsonError>)
      modifies this
      decreases true, e, 4
      ensures out == old(out) + EntryJson(cfg, old(level), e, s).text
      ensures err == EntryJson(cfg, old(level), e, s).err
      ensures err.None? ==> level == old(level)
    {
      ghost var comma := if s then "," else "";
      ghost var sp := if cfg.indent then " " else "";
      if s {
        out := out + ",";
      } else {
        AppendEmpty(out);
      }
      Indent();
      StringOut(KeyName(e.key));
      out := out + ":";
      ghost var beforeSpace := out;
      if cfg.indent {
        out := out + " ";
      } else {
        AppendEmpty(out);
      }
      assert out == beforeSpace + sp;
      ghost var head := EntryHead(cfg, level, KeyName(e.key), s);
      Assoc5(old(out), comma, IndentText(cfg, level), StringJson(cfg, KeyName(e.key)), ":", sp);
      err := SerializeValue(e.value);
      AppendAssoc(old(out), head, ValueJson(cfg, old(level), e.value).text);
    }

    /** The array branch of `Function`. */
    method ArrayMembers(ms: seq<Value>) returns (err: Option<JsonError>)
      modifies this
      decreases true, ArrayItem(ms), 0
      ensures out == old(out) + ItemJson(cfg, old(level), ArrayItem(ms)).text
      ensures err == ItemJson(cfg, old(level), ArrayItem(ms)).err
      ensures err.None? ==> sep && level == old(level)
    {
      level := level + 1;
      out := out + "[";
      err := WriteMembers(ms);
      if err.Some? {
        AppendAssoc(old(out), "[", MembersJson(cfg, level, ms, false).text);
        return;
      }
      ghost var body := MembersJson(cfg, level, ms, false).text;
      CloseBracket("]");
      Assoc3(old(out), "[", body, IndentText(cfg, old(level)) + "]");
      sep := true;
    }

    /** The members of an array, one after the other. */
    method WriteMembers(ms: seq<Value>) returns (err: Option<JsonError>)
      modifies this
      decreases true, ms, 1
      ensures out == old(out) + MembersJson(cfg, old(level), ms, false).text
      ensures err == MembersJson(cfg, old(level), ms, false).err
      ensures err.None? ==> level == old(level)
    {
      ghost var whole := MembersJson(cfg, level, ms, false);
      ghost var written := "";
      var s := false;
      var i := 0;
      while i < |ms|
        invariant 0 <= i <= |ms|
        invariant level == old(level)
        invariant s == (i > 0)
        invariant out == old(out) + written
        invariant whole == Then(written, MembersJson(cfg, level, ms[i..], s))
      {
        MembersStep(cfg, level, ms, i, s);
        ghost var e := MemberJson(cfg, level, ms[i], s);
        err := WriteMember(ms[i], s);
        AppendAssoc(old(out), written, e.text);
        ThenThen(written, e.text, MembersJson(cfg, level, ms[i + 1..], true));
        written := written + e.text;
        if err.Some? {
          return;
        }
        s := true;
        i := i + 1;
      }
      err := None;
    }

    /** One member of an array: comma, indentation, value. */
    method WriteMember(m: Value, s: bool) returns (err: Option<JsonError>)
      modifies this
      decreases true, m, 4
      ensures out == old(out) + MemberJson(cfg, old(level), m, s).text
      ensures err == MemberJson(cfg, old(level), m, s).err
      ensures err.None? ==> level == old(level)
    {
      if s {
        out := out + ",";
      } else {
        AppendEmpty(out);
      }
      Indent();
      err := SerializeValue(m);
      Assoc3(old(out), if s then "," else "", IndentText(cfg, old(level)), ValueJson(cfg, old(level), m).text);
    }

    /** Leaves a nesting level: indentation for the outer level, then the closing bracket. */
    method CloseBracket(bracket: string)
      requires level > 0
      modifies this
      ensures level == old(level) - 1 && sep == old(sep)
      ensures out == old(out) + (IndentText(cfg, level) + bracket)
    {
      level := level - 1;
      Indent();
      out := out + bracket;
      AppendAssoc(old(out), IndentText(cfg, level), bracket);
    }

    /** Serializes an atomic item. */
    method Atomic(a: Atomic)
      modifies this
      ensures out == old(out) + AtomJson(cfg, a)
      ensures sep == old(sep) && level == old(level)
    {
      match a
      case ABool(_) =>
        out := out + KeyName(a);
      case ANumber(_) =>
        out := out + KeyName(a);
      case AString(s) =>
        StringOut(s);
    }

    /** Writes the indentation for the current level. */
    method Indent()
      modifies this
      ensures out == old(out) + IndentText(cfg, level)
      ensures sep == old(sep) && level == old(level)
    {
      if !cfg.lines {
        if cfg.indent {
          out := out + cfg.lineBreak(level);
        }
      } else if cfg.indent {
        out := out + " ";
      }
    }

    /** Writes a JSON string: `"`, every code point in order, `"`. */
    method StringOut(s: string)
      modifies this
      ensures out == old(out) + StringJson(cfg, s)
      ensures sep == old(sep) && level == old(level)
    {
      out := out + "\"";
      ghost var start := out;
      var n := 0;
      while n < |s|
        invariant 0 <= n <= |s|
        invariant sep == old(sep) && level == old(level)
        invariant out == start + PrintAll(s[..n], cfg.escape, cfg.escapeSolidus, cfg.encodable)
      {
        ghost var done := PrintAll(s[..n], cfg.escape, cfg.escapeSolidus, cfg.encodable);
        ghost var piece := Print(s[n], cfg.escape, cfg.escapeSolidus, cfg.encodable);
        PrintAllAppend(s[..n], s[n], cfg.escape, cfg.escapeSolidus, cfg.encodable);
        assert s[..n + 1] == s[..n] + [s[n]];
        PrintChar(s[n]);
        AppendAssoc(start, done, piece);
        n := n + 1;
      }
      assert s[..n] == s;
      out := out + "\"";
      Assoc3(old(out), "\"", PrintAll(s, cfg.escape, cfg.escapeSolidus, cfg.encodable), "\"");
    }

    /** Writes one code point, escaped as the parameters ask. */
    method PrintChar(c: char)
      modifies this
      ensures out == old(out) + Print(c, cfg.escape, cfg.escapeSolidus, cfg.encodable)
      ensures sep == old(sep) && level == old(level)
    {
      if cfg.escape && Special(c, cfg.escapeSolidus).Some? {
        out := out + Special(c, cfg.escapeSolidus).value;
      } else {
        out := out + Encoded(c, cfg.encodable);
      }
    }

    /** Finishes the output: `null` if nothing was written and JSON lines are off. */
    method Close()
      modifies this
      ensures out == old(out) + (if !old(sep) && !cfg.lines then "null" else "")
      ensures sep == old(sep) && level == old(level)
    {
      if !sep && !cfg.lines {
        out := out + "null";
      }
    }
  }
}
