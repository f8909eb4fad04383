/**
  The four query transactions. Each sends one request to the store and
  drains the iterator it answers with; what the store answers (range
  order, selector matching, pages) is the store's business, so it is a
  parameter: the entries the store yields for each request, and whether
  its iterators flag the last entry itself as `done`.
 */
module Queries {
  import opened Wrappers
  import opened Cursor

  /** A CouchDB selector: a field equal to a value, or a numeric field at least a bound. */
  datatype Selector = FieldEquals(field: string, value: string) | FieldAtLeast(field: string, min: int)

  /** The requests the transactions send to the store. */
  datatype Request =
    | StateRange(startKey: string, endKey: string)
    | RichQuery(selector: Selector)
    | PagedQuery(selector: Selector, pageSize: int, bookmark: string)
    | KeyHistory(key: string)

  const AllAerosRange: Request := StateRange("000", "999")

  /** All records in the key range "000" to "999", keyed. */
  method QueryAllAeros<J>(store: Request -> seq<Entry>, lastWithDone: bool,
                          toText: Bytes -> string, parse: string -> Option<J>)
    returns (rows: seq<Row<J>>)
    ensures rows == Drained(store(AllAerosRange), true, toText, parse)
  {
    var cursor := new ResultsIterator(store(AllAerosRange), lastWithDone);
    rows := Drain(cursor, true, toText, parse);
  }

  /** Records whose `type` field equals `recordType`, keyed. */
  method QueryByType<J>(store: Request -> seq<Entry>, recordType: string, lastWithDone: bool,
                        toText: Bytes -> string, parse: string -> Option<J>)
    returns (rows: seq<Row<J>>)
    ensures rows == Drained(store(RichQuery(FieldEquals("type", recordType))), true, toText, parse)
  {
    var cursor := new ResultsIterator(store(RichQuery(FieldEquals("type", recordType))), lastWithDone);
    rows := Drain(cursor, true, toText, parse);
  }

  /** Every stored version of `id`, without keys. */
  method GetHistoryByKey<J>(store: Request -> seq<Entry>, id: string, lastWithDone: bool,
                            toText: Bytes -> string, parse: string -> Option<J>)
    returns (rows: seq<Row<J>>)
    ensures rows == Drained(store(KeyHistory(id)), false, toText, parse)
    ensures forall row :: row in rows ==> row.key == None
  {
    var cursor := new ResultsIterator(store(KeyHistory(id)), lastWithDone);
    rows := Drain(cursor, false, toText, parse);
    RowKeys(store(KeyHistory(id)), false, toText, parse);
  }

  /** One page of records whose `year` is at least `min`, keyed; the returned bookmark is dropped. */
  method QueryMinYear<J>(store: Request -> seq<Entry>, min: int, size: int, bookmark: string,
                         lastWithDone: bool, toText: Bytes -> string, parse: string -> Option<J>)
    returns (rows: seq<Row<J>>)
    ensures rows == Drained(store(PagedQuery(FieldAtLeast("year", min), size, bookmark)), true, toText, parse)
  {
    var cursor := new ResultsIterator(store(PagedQuery(FieldAtLeast("year", min), size, bookmark)), lastWithDone);
    rows := Drain(cursor, true, toText, parse);
  }
}
