/** One bandwidth test result, as the measurement step builds it: a dictionary
    whose keys are inserted in the fixed order ping, download, upload, server,
    timestamp. The CSV export writes the dictionary's values positionally, so
    the row is only meaningful because that order never changes. */
module Measurement {

  datatype Option<T> = None | Some(value: T)

  /** ping in milliseconds, download and upload in bits per second, the
      server's display name and the formatted local time of the test. */
  datatype Record = Record(ping: real, download: real, upload: real, server: string, timestamp: string)

  /** A cell of an exported row: a number or a piece of text. */
  datatype Cell = Number(n: real) | Text(s: string)

  /** The insertion order of the record's keys. */
  const FieldOrder: seq<string> := ["ping", "download", "upload", "server", "timestamp"]

  /** Looking a key up in the record, as `record['download']` does. */
  function Lookup(r: Record, key: string): (v: Option<Cell>)
    ensures v.Some? <==> key in FieldOrder
  {
    if key == "ping" then Some(Number(r.ping))
    else if key == "download" then Some(Number(r.download))
    else if key == "upload" then Some(Number(r.upload))
    else if key == "server" then Some(Text(r.server))
    else if key == "timestamp" then Some(Text(r.timestamp))
    else None
  }

  /** The values of the record in insertion order: the CSV row. */
  function Row(r: Record): (row: seq<Cell>)
    ensures |row| == |FieldOrder|
    ensures forall i :: 0 <= i < |row| ==> Lookup(r, FieldOrder[i]) == Some(row[i])
  {
    [Number(r.ping), Number(r.download), Number(r.upload), Text(r.server), Text(r.timestamp)]
  }

  /** Reading a row back positionally, as a consumer of the CSV file does. */
  function FromRow(row: seq<Cell>): (r: Option<Record>)
    ensures r.Some? ==> |row| == |FieldOrder|
  {
    if |row| == 5 && row[0].Number? && row[1].Number? && row[2].Number? && row[3].Text? && row[4].Text?
    then Some(Record(row[0].n, row[1].n, row[2].n, row[3].s, row[4].s))
    else None
  }

  /** A row read back positionally gives the record that was written, and
      only rows written from a record are read back at all. */
  lemma RowRoundTrip(r: Record, row: seq<Cell>)
    ensures FromRow(Row(r)) == Some(r)
    ensures FromRow(row) == Some(r) <==> row == Row(r)
  {
    if FromRow(row) == Some(r) {
      assert row == [row[0], row[1], row[2], row[3], row[4]];
    }
  }
}
