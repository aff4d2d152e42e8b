/**
 * The conversion of CSV input to an XQuery map
 * (org.basex.io.parse.csv.CsvXQueryConverter).
 *
 * The CSV parser calls `header` for every field of the header line, `record`
 * at the start of every record and `entry` for every field of a record; in
 * the end `finish` builds a map with the entry `records`, a sequence holding
 * one array of strings per record, preceded by the entry `names`, an array
 * of the header fields, when there were any.
 *
 * The converter's state is its header list, its finished rows and its
 * current row (absent before the first record). Each callback is proved to
 * perform one step of `Step`; `Replay` runs a whole sequence of callbacks,
 * and the lemmas say what such a run yields.
 */
module CsvXQuery {
  import opened Wrappers

  /** The callbacks of the CSV parser, as events. */
  datatype Event = HeaderEvent(name: string) | RecordEvent | EntryEvent(value: string)

  /** Headers seen, rows finished, and the row being filled, if any. */
  datatype CsvState = CsvState(headers: seq<string>, rows: seq<seq<string>>, row: Option<seq<string>>)

  /** The state of a new converter. */
  const Start: CsvState := CsvState([], [], None)

  /** What one callback does to the state; an entry needs a current row. */
  function Step(st: CsvState, e: Event): (r: CsvState)
    requires e.EntryEvent? ==> st.row.Some?
  {
    match e
    case HeaderEvent(name) => st.(headers := st.headers + [name])
    case RecordEvent => Flush(st).(row := Some([]))
    case EntryEvent(value) => st.(row := Some(st.row.value + [value]))
  }

  /** The current row, if any, moved to the finished rows; the current row itself stays. */
  function Flush(st: CsvState): (r: CsvState)
  {
    if st.row.Some? then st.(rows := st.rows + [st.row.value]) else st
  }

  /** Whether no entry arrives before the first record. */
  predicate Feasible(events: seq<Event>) {
    forall i :: 0 <= i < |events| && events[i].EntryEvent? ==>
      exists j :: 0 <= j < i && events[j].RecordEvent?
  }

  /** Whether a record has started by the end of `events`. */
  predicate Started(events: seq<Event>) {
    exists j :: 0 <= j < |events| && events[j].RecordEvent?
  }

  /**
   * A feasible run without its last callback is feasible; a record has
   * started by its end exactly when one had started before or the last
   * callback starts one; and a last entry comes after a record.
   */
  lemma InitFeasible(events: seq<Event>)
    requires Feasible(events) && events != []
    ensures Feasible(events[..|events| - 1])
    ensures Started(events) <==> Started(events[..|events| - 1]) || events[|events| - 1].RecordEvent?
    ensures events[|events| - 1].EntryEvent? ==> Started(events[..|events| - 1])
  {
    var init := events[..|events| - 1];
    var e := events[|events| - 1];
    forall i | 0 <= i < |init| && init[i].EntryEvent?
      ensures exists j :: 0 <= j < i && init[j].RecordEvent?
    {
      assert events[i] == init[i];
      var j :| 0 <= j < i && events[j].RecordEvent?;
      assert init[j] == events[j];
    }
    if Started(events) && !e.RecordEvent? {
      var j :| 0 <= j < |events| && events[j].RecordEvent?;
      assert j < |init| && init[j] == events[j];
    }
    if Started(init) {
      var j :| 0 <= j < |init| && init[j].RecordEvent?;
      assert events[j] == init[j];
    }
    if e.EntryEvent? {
      var j :| 0 <= j < |events| - 1 && events[j].RecordEvent?;
      assert init[j] == events[j];
    }
  }

  /** The state after the callbacks `events`, from a new converter. */
  function Replay(events: seq<Event>): (r: CsvState)
    requires Feasible(events)
    ensures r.row.Some? <==> Started(events)
  {
    if events == [] then Start
    else
      InitFeasible(events);
      Step(Replay(events[..|events| - 1]), events[|events| - 1])
  }

  /** The header fields among `events`, in order. */
  function HeaderNames(events: seq<Event>): seq<string>
  {
    if events == [] then []
    else
      var last := match events[|events| - 1] case HeaderEvent(name) => [name] case _ => [];
      HeaderNames(events[..|events| - 1]) + last
  }

  /** The record fields among `events`, in order. */
  function EntryValues(events: seq<Event>): seq<string>
  {
    if events == [] then []
    else
      var last := match events[|events| - 1] case EntryEvent(value) => [value] case _ => [];
      EntryValues(events[..|events| - 1]) + last
  }

  /** How many records start among `events`. */
  function CountRecords(events: seq<Event>): nat
  {
    if events == [] then 0
    else CountRecords(events[..|events| - 1]) + (if events[|events| - 1].RecordEvent? then 1 else 0)
  }

  /**
   * The fields of each record among `events`: one row per record, holding
   * the entries that follow it up to the next record.
   */
  function RecordFields(events: seq<Event>): seq<seq<string>>
  {
    if events == [] then []
    else
      var rows := RecordFields(events[..|events| - 1]);
      match events[|events| - 1]
      case HeaderEvent(_) => rows
      case RecordEvent => rows + [[]]
      case EntryEvent(v) =>
        if rows == [] then rows else rows[..|rows| - 1] + [rows[|rows| - 1] + [v]]
  }

  /** All fields of some rows, one row after the other. */
  function Concat(rows: seq<seq<string>>): (r: seq<string>)
  {
    if rows == [] then [] else Concat(rows[..|rows| - 1]) + rows[|rows| - 1]
  }

  /** Concatenating one more row appends its fields. */
  lemma ConcatAppend(rows: seq<seq<string>>, row: seq<string>)
    ensures Concat(rows + [row]) == Concat(rows) + row
  {
    assert (rows + [row])[..|rows|] == rows;
  }

  /** The rows and the current row of a state, all fields in order. */
  function AllFields(st: CsvState): seq<string> {
    Concat(st.rows) + (if st.row.Some? then st.row.value else [])
  }

  /** The header list holds exactly the header fields, in the order they were read. */
  lemma {:induction false} HeadersInOrder(events: seq<Event>)
    requires Feasible(events)
    ensures Replay(events).headers == HeaderNames(events)
  {
    if events != [] {
      HeadersInOrder(events[..|events| - 1]);
    }
  }

  /**
   * The finished rows plus the current row are exactly the record fields, in
   * the order they were read; no field is lost or duplicated.
   */
  lemma {:induction false} FieldsInOrder(events: seq<Event>)
    requires Feasible(events)
    ensures AllFields(Replay(events)) == EntryValues(events)
  {
    if events != [] {
      var init := events[..|events| - 1];
      var e := events[|events| - 1];
      FieldsInOrder(init);
      var before := Replay(init);
      match e
      case HeaderEvent(_) =>
      case RecordEvent =>
        if before.row.Some? {
          ConcatAppend(before.rows, before.row.value);
        }
      case EntryEvent(v) =>
        assert AllFields(Replay(events)) == Concat(before.rows) + (before.row.value + [v]);
    }
  }

  /** There is one row, finished or current, per record started. */
  lemma {:induction false} RowPerRecord(events: seq<Event>)
    requires Feasible(events)
    ensures |Flush(Replay(events)).rows| == CountRecords(events)
  {
    if events != [] {
      RowPerRecord(events[..|events| - 1]);
    }
  }

  /**
   * After the final flush, the rows are exactly the records' fields: one
   * row per record, each holding the entries read after that record began.
   */
  lemma {:induction false} RowsAreRecords(events: seq<Event>)
    requires Feasible(events)
    ensures Flush(Replay(events)).rows == RecordFields(events)
  {
    if events != [] {
      var init := events[..|events| - 1];
      InitFeasible(events);
      RowsAreRecords(init);
      var before := Replay(init);
      var rows := RecordFields(init);
      match events[|events| - 1]
      case HeaderEvent(_) =>
      case RecordEvent =>
      case EntryEvent(v) =>
        var r := before.row.value;
        assert rows == before.rows + [r];
        assert rows[..|rows| - 1] == before.rows && rows[|rows| - 1] == r;
    }
  }

  /** Flushing at the end leaves every field in the finished rows. */
  lemma FlushKeepsFields(st: CsvState)
    ensures Concat(Flush(st).rows) == AllFields(st)
  {
    if st.row.Some? {
      ConcatAppend(st.rows, st.row.value);
    } else {
      assert AllFields(st) == Concat(st.rows) + [];
    }
  }

  /** The values of the result map. */
  datatype CsvValue = StringArray(strings: seq<string>) | ArraySequence(arrays: seq<seq<string>>)

  /** One entry of the result map. */
  datatype Pair = Pair(key: string, value: CsvValue)

  const Names: string := "names"
  const Records: string := "records"

  /** The result of `finish` for a state: `names` if there are headers, then `records`. */
  function Output(st: CsvState): (r: seq<Pair>)
  {
    (if st.headers != [] then [Pair(Names, StringArray(st.headers))] else []) +
    [Pair(Records, ArraySequence(Flush(st).rows))]
  }

  /** The value of `key` in a result map, if it has one. */
  function Lookup(m: seq<Pair>, key: string): (r: Option<CsvValue>)
    ensures r.Some? <==> exists i :: 0 <= i < |m| && m[i].key == key
  {
    if m == [] then None
    else if m[0].key == key then Some(m[0].value)
    else
      var r := Lookup(m[1..], key);
      assert r.Some? <==> exists i :: 0 <= i < |m| && m[i].key == key by {
        if exists i :: 0 <= i < |m| && m[i].key == key {
          var i :| 0 <= i < |m| && m[i].key == key;
          assert i > 0 && m[1..][i - 1] == m[i];
        }
        if r.Some? {
          var i :| 0 <= i < |m[1..]| && m[1..][i].key == key;
          assert m[i + 1] == m[1..][i];
        }
      }
      r
  }

  /**
   * The result holds `names` exactly when a header was read, as an array of
   * the headers in order; `records` is always there, with one array per row,
   * the pending row included; no key occurs twice.
   */
  lemma OutputEntries(st: CsvState)
    ensures Lookup(Output(st), Names).Some? <==> st.headers != []
    ensures st.headers != [] ==> Lookup(Output(st), Names) == Some(StringArray(st.headers))
    ensures Lookup(Output(st), Records) == Some(ArraySequence(Flush(st).rows))
    ensures forall i, j :: 0 <= i < j < |Output(st)| ==> Output(st)[i].key != Output(st)[j].key
  {
    assert Names != Records;
    var out := Output(st);
    if st.headers != [] {
      assert out[1..] == [Pair(Records, ArraySequence(Flush(st).rows))];
    }
  }

  /**
   * A whole run: the result of `finish` after the callbacks `events` has the
   * header fields as `names` when there are any, and as `records` one array
   * per record, holding the fields read after that record began; together
   * they are all record fields in the order they were read.
   */
  lemma RunResult(events: seq<Event>)
    requires Feasible(events)
    ensures Lookup(Output(Replay(events)), Names).Some? <==> HeaderNames(events) != []
    ensures HeaderNames(events) != [] ==>
      Lookup(Output(Replay(events)), Names) == Some(StringArray(HeaderNames(events)))
    ensures Lookup(Output(Replay(events)), Records) == Some(ArraySequence(RecordFields(events)))
    ensures Flush(Replay(events)).rows == RecordFields(events)
    ensures |RecordFields(events)| == CountRecords(events)
    ensures Concat(RecordFields(events)) == EntryValues(events)
  {
    var st := Replay(events);
    HeadersInOrder(events);
    FieldsInOrder(events);
    RowPerRecord(events);
    RowsAreRecords(events);
    FlushKeepsFields(st);
    OutputEntries(st);
  }

  /** The converter: header list, finished rows, current row. */
  class CsvXQueryConverter {
    var headers: seq<string>
    var rows: seq<seq<string>>
    var row: Option<seq<string>>

    /** The state as a value. */
    function State(): CsvState
      reads this
    {
      CsvState(headers, rows, row)
    }

    constructor ()
      ensures State() == Start
    {
      headers := [];
      rows := [];
      row := None;
    }

    /** A header field: appended to the header list. */
    method Header(name: string)
      modifies this
      ensures State() == Step(old(State()), HeaderEvent(name))
    {
      headers := headers + [name];
    }

    /** A new record: the current row, if any, is finished, and an empty row started. */
    method Record()
      modifies this
      ensures State() == Step(old(State()), RecordEvent)
    {
      if row.Some? {
        rows := rows + [row.value];
      }
      row := Some([]);
    }

    /** A record field: appended to the current row, which must exist. */
    method Entry(value: string)
      requires row.Some?
      modifies this
      ensures State() == Step(old(State()), EntryEvent(value))
    {
      row := Some(row.value + [value]);
    }

    /** The header fields, one by one, as the `names` array. */
    method NameArray() returns (names: seq<string>)
      ensures names == headers
    {
      names := [];
      var i := 0;
      while i < |headers|
        invariant 0 <= i <= |headers|
        invariant names == headers[..i]
      {
        names := names + [headers[i]];
        i := i + 1;
      }
    }

    /**
     * The result map: the pending row is finished first (and stays current),
     * then `names` if there are headers, then `records`.
     */
    method Finish() returns (result: seq<Pair>)
      modifies this
      ensures result == Output(old(State()))
      ensures State() == Flush(old(State()))
    {
      if row.Some? {
        rows := rows + [row.value];
      }
      result := [];
      if |headers| > 0 {
        var names := NameArray();
        result := result + [Pair(Names, StringArray(names))];
      }
      result := result + [Pair(Records, ArraySequence(rows))];
    }
  }
}
