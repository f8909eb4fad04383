/**
  The result-draining loop shared by the four query transactions: pull
  entries from a store iterator until it reports `done`, skip entries whose
  value reads as empty text, decode the rest as JSON or keep their raw text
  when decoding fails, collect them in iterator order and close the iterator.
 */
module Cursor {
  import opened Wrappers

  newtype byte = x: int | 0 <= x < 256
  type Bytes = seq<byte>

  /** One item of a state, rich-query or history iterator: its key and its value bytes. */
  datatype Entry = Entry(key: string, value: Bytes)

  /** What `iterator.next()` resolves to: an entry (or none) and whether the iterator is exhausted. */
  datatype Step = Step(value: Option<Entry>, done: bool)

  /** A collected value: the parsed JSON, or the raw text when parsing threw. */
  datatype Record<+J> = Parsed(json: J) | Raw(text: string)

  /** One element of `allResults`: `{ Key, Record }`, or `{ Record }` for key history. */
  datatype Row<+J> = Row(key: Option<string>, record: Record<J>)

  /**
    A forward-only, single-use iterator over the entries the store answered
    with. Depending on the store, the last entry comes either with `done`
    false, followed by a step with no value and `done` true, or together
    with `done` true (`lastWithDone`).
   */
  class ResultsIterator {
    const entries: seq<Entry>
    const lastWithDone: bool
    var pos: nat
    var closes: nat

    ghost predicate Valid()
      reads this
    {
      pos <= |entries|
    }

    /** The entries `next()` has not yet handed out. */
    function Remaining(): seq<Entry>
      reads this
      requires Valid()
    {
      entries[pos..]
    }

    constructor (entries: seq<Entry>, lastWithDone: bool)
      ensures Valid()
      ensures this.entries == entries && this.lastWithDone == lastWithDone && pos == 0 && closes == 0
    {
      this.entries := entries;
      this.lastWithDone := lastWithDone;
      pos := 0;
      closes := 0;
    }

    /**
      Hands out the next entry, flagged `done` when it is the last one and
      the store reports it that way; reports `done` with no value once every
      entry is out.
     */
    method Next() returns (step: Step)
      requires Valid() && closes == 0
      modifies this`pos
      ensures Valid()
      ensures old(pos) < |entries| ==>
                step == Step(Some(entries[old(pos)]), lastWithDone && old(pos) + 1 == |entries|)
                && pos == old(pos) + 1
      ensures old(pos) == |entries| ==> step == Step(None, true) && pos == old(pos)
    {
      if pos < |entries| {
        step := Step(Some(entries[pos]), lastWithDone && pos + 1 == |entries|);
        pos := pos + 1;
      } else {
        step := Step(None, true);
      }
    }

    /** Releases the iterator; `closes` counts how often that happened. */
    method Close()
      modifies this`closes
      ensures closes == old(closes) + 1
    {
      closes := closes + 1;
    }
  }

  /** The row collected for one entry: keyed or not, parsed JSON or the raw text as fallback. */
  function RowOf<J>(e: Entry, withKey: bool, toText: Bytes -> string, parse: string -> Option<J>): Row<J>
  {
    var text := toText(e.value);
    Row(if withKey then Some(e.key) else None,
        match parse(text)
        case Some(j) => Parsed(j)
        case None => Raw(text))
  }

  /** The entries whose value reads as non-empty text, in iterator order. */
  function Kept(es: seq<Entry>, toText: Bytes -> string): seq<Entry>
  {
    if |es| == 0 then []
    else
      (if |toText(es[0].value)| > 0 then [es[0]] else []) + Kept(es[1..], toText)
  }

  /** What the draining loop collects from `es`, one entry at a time. */
  function Drained<J>(es: seq<Entry>, withKey: bool, toText: Bytes -> string, parse: string -> Option<J>): (rows: seq<Row<J>>)
    ensures |rows| == |Kept(es, toText)|
  {
    if |es| == 0 then []
    else
      (if |toText(es[0].value)| > 0 then [RowOf(es[0], withKey, toText, parse)] else [])
      + Drained(es[1..], withKey, toText, parse)
  }

  /**
    The draining loop. It reads the iterator to its end, collects exactly
    `Drained` of what remained, and closes the iterator once.
   */
  method Drain<J>(it: ResultsIterator, withKey: bool, toText: Bytes -> string, parse: string -> Option<J>)
    returns (rows: seq<Row<J>>)
    requires it.Valid() && it.closes == 0
    modifies it`pos, it`closes
    ensures it.Valid() && it.pos == |it.entries| && it.closes == 1
    ensures rows == Drained(old(it.Remaining()), withKey, toText, parse)
  {
    ghost var rest := it.Remaining();
    ghost var all := Drained(rest, withKey, toText, parse);
    rows := [];
    assert Collected(rows, rest, withKey, toText, parse) == all by {
      CollectedIsDrained(rows, rest, withKey, toText, parse);
    }
    while true
      invariant it.Valid() && it.closes == 0 && rest == it.Remaining()
      invariant Collected(rows, rest, withKey, toText, parse) == all
      decreases |rest|
    {
      var res := it.Next();
      assert res.value.Some? ==> res.value.value == rest[0] && rest[1..] == it.Remaining();
      if res.value.Some? && |toText(res.value.value.value)| > 0 {
        var row := Collect(res.value.value, withKey, toText, parse);
        rows := rows + [row];
      }
      if res.done {
        it.Close();
        return;
      }
      rest := rest[1..];
    }
  }

  /** The body of the loop for a kept entry: parse its text, falling back to the raw text when parsing throws. */
  method Collect<J>(e: Entry, withKey: bool, toText: Bytes -> string, parse: string -> Option<J>) returns (row: Row<J>)
    ensures row.key == if withKey then Some(e.key) else None
    ensures parse(toText(e.value)).Some? ==> row.record == Parsed(parse(toText(e.value)).value)
    ensures parse(toText(e.value)).None? ==> row.record == Raw(toText(e.value))
  {
    var text := toText(e.value);
    var record: Record<J>;
    match parse(text) {
      case Some(j) => record := Parsed(j);
      case None => record := Raw(text);
    }
    row := Row(if withKey then Some(e.key) else None, record);
  }

  /** The loop's view of `Drained`: the rows collected so far, extended by draining `rest`. */
  function Collected<J>(rows: seq<Row<J>>, rest: seq<Entry>,
                        withKey: bool, toText: Bytes -> string, parse: string -> Option<J>): seq<Row<J>>
    decreases |rest|
  {
    if |rest| == 0 then rows
    else if |toText(rest[0].value)| > 0 then Collected(rows + [RowOf(rest[0], withKey, toText, parse)], rest[1..], withKey, toText, parse)
    else Collected(rows, rest[1..], withKey, toText, parse)
  }

  /** Collecting on top of earlier rows appends `Drained` to them. */
  lemma {:induction false} CollectedIsDrained<J>(rows: seq<Row<J>>, rest: seq<Entry>,
                                                 withKey: bool, toText: Bytes -> string, parse: string -> Option<J>)
    ensures Collected(rows, rest, withKey, toText, parse) == rows + Drained(rest, withKey, toText, parse)
    decreases |rest|
  {
    if |rest| > 0 {
      var head := if |toText(rest[0].value)| > 0 then [RowOf(rest[0], withKey, toText, parse)] else [];
      var tail := Drained(rest[1..], withKey, toText, parse);
      calc {
        Collected(rows, rest, withKey, toText, parse);
        { assert |toText(rest[0].value)| == 0 ==> rows + head == rows; }
        Collected(rows + head, rest[1..], withKey, toText, parse);
        { CollectedIsDrained(rows + head, rest[1..], withKey, toText, parse); }
        (rows + head) + tail;
        rows + (head + tail);
        rows + Drained(rest, withKey, toText, parse);
      }
    }
  }

  /** An entry is kept exactly when it is one of the iterator's entries and its text is non-empty. */
  lemma {:induction false} KeptMembers(es: seq<Entry>, toText: Bytes -> string, e: Entry)
    ensures e in Kept(es, toText) <==> e in es && |toText(e.value)| > 0
  {
    if |es| > 0 {
      assert es == [es[0]] + es[1..];
      KeptMembers(es[1..], toText, e);
    }
  }

  /** The collected rows are exactly the kept entries, each turned into its row, in the same order. */
  lemma {:induction false} DrainedIsKeptMapped<J>(es: seq<Entry>, withKey: bool, toText: Bytes -> string, parse: string -> Option<J>)
    ensures forall i :: 0 <= i < |Drained(es, withKey, toText, parse)| ==>
              Drained(es, withKey, toText, parse)[i] == RowOf(Kept(es, toText)[i], withKey, toText, parse)
  {
    if |es| > 0 {
      DrainedIsKeptMapped(es[1..], withKey, toText, parse);
    }
  }

  /** Draining two runs of entries one after the other collects the first run's rows before the second's. */
  lemma {:induction false} DrainedAppend<J>(es: seq<Entry>, fs: seq<Entry>, withKey: bool, toText: Bytes -> string, parse: string -> Option<J>)
    ensures Drained(es + fs, withKey, toText, parse)
            == Drained(es, withKey, toText, parse) + Drained(fs, withKey, toText, parse)
  {
    if |es| == 0 {
      assert es + fs == fs;
    } else {
      var head := if |toText(es[0].value)| > 0 then [RowOf(es[0], withKey, toText, parse)] else [];
      var front := Drained(es[1..], withKey, toText, parse);
      var back := Drained(fs, withKey, toText, parse);
      assert (es + fs)[0] == es[0] && (es + fs)[1..] == es[1..] + fs;
      calc {
        Drained(es + fs, withKey, toText, parse);
        head + Drained(es[1..] + fs, withKey, toText, parse);
        { DrainedAppend(es[1..], fs, withKey, toText, parse); }
        head + (front + back);
        (head + front) + back;
      }
    }
  }

  /**
    Every entry with non-empty text shows up among the rows, whether or not
    it parses: a failed parse yields its raw text, a successful one the JSON.
   */
  lemma {:induction false} NoEntryDropped<J>(es: seq<Entry>, e: Entry, withKey: bool, toText: Bytes -> string, parse: string -> Option<J>)
    requires e in es && |toText(e.value)| > 0
    ensures RowOf(e, withKey, toText, parse) in Drained(es, withKey, toText, parse)
    ensures parse(toText(e.value)).None? ==> RowOf(e, withKey, toText, parse).record == Raw(toText(e.value))
    ensures parse(toText(e.value)).Some? ==> RowOf(e, withKey, toText, parse).record == Parsed(parse(toText(e.value)).value)
  {
    var ks := Kept(es, toText);
    KeptMembers(es, toText, e);
    var i :| 0 <= i < |ks| && ks[i] == e;
    DrainedIsKeptMapped(es, withKey, toText, parse);
    assert Drained(es, withKey, toText, parse)[i] == RowOf(e, withKey, toText, parse);
  }

  /** Rows collected without keys (key history) carry no key; keyed rows carry their entry's key. */
  lemma {:induction false} RowKeys<J>(es: seq<Entry>, withKey: bool, toText: Bytes -> string, parse: string -> Option<J>)
    ensures forall i :: 0 <= i < |Drained(es, withKey, toText, parse)| ==>
              Drained(es, withKey, toText, parse)[i].key
              == (if withKey then Some(Kept(es, toText)[i].key) else None)
  {
    DrainedIsKeptMapped(es, withKey, toText, parse);
  }
}
