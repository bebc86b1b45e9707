/**
 Editing header metadata: reading the key/value table back into a dict
 (`get_metadata_from_table`) and overlaying it on a copy of the header
 (`update_header_with_metadata`).
 */
module Metadata {
  import opened ExrTypes

  /**
   `update_header_with_metadata`: a copy of the header with every metadata
   entry written over it. The key set is the union; metadata keys take the
   metadata value and all other keys keep the header value.
   */
  function UpdateHeader<K, V>(header: map<K, V>, metadata: map<K, V>): (r: map<K, V>)
    ensures r.Keys == header.Keys + metadata.Keys
    ensures forall k :: k in metadata ==> r[k] == metadata[k]
    ensures forall k :: k in header && k !in metadata ==> r[k] == header[k]
  {
    header + metadata
  }

  /** Overlaying the same metadata a second time changes nothing. */
  lemma UpdateIdempotent<K, V>(header: map<K, V>, metadata: map<K, V>)
    ensures UpdateHeader(UpdateHeader(header, metadata), metadata) == UpdateHeader(header, metadata)
  {
    var once := UpdateHeader(header, metadata);
    var twice := UpdateHeader(once, metadata);
    assert twice.Keys == once.Keys;
    forall k | k in twice
      ensures twice[k] == once[k]
    {
    }
  }

  /** Empty metadata gives back a map equal to the header. */
  lemma UpdateWithNothing<K, V>(header: map<K, V>)
    ensures UpdateHeader(header, map[]) == header
  {
    var r := UpdateHeader(header, map[]);
    assert r.Keys == header.Keys;
  }

  /** One row of the metadata table: its key cell and value cell, either of which may be missing. */
  datatype Row = Row(key: Option<string>, value: Option<string>)

  /** Row `row` is a complete row whose key text is `k`. */
  predicate Entry(row: Row, k: string) {
    row.key == Some(k) && row.value.Some?
  }

  /**
   `get_metadata_from_table`: rows are read top to bottom, rows lacking a
   cell are skipped, and a later row with the same key overwrites an earlier
   one. A key is present exactly when some complete row carries it.
   */
  function TableMetadata(rows: seq<Row>): (r: map<string, string>)
    ensures forall k :: k in r <==> exists i :: 0 <= i < |rows| && Entry(rows[i], k)
  {
    if |rows| == 0 then map[]
    else
      var n := |rows| - 1;
      var m := TableMetadata(rows[..n]);
      assert forall i :: 0 <= i < n ==> rows[..n][i] == rows[i];
      var row := rows[n];
      if row.key.Some? && row.value.Some? then m[row.key.value := row.value.value] else m
  }

  /** Row `i` is the last complete row whose key is `k`. */
  ghost predicate LastEntry(rows: seq<Row>, i: int, k: string) {
    0 <= i < |rows| && Entry(rows[i], k) && forall j :: i < j < |rows| ==> !Entry(rows[j], k)
  }

  /** The value of a key is the value cell of the last complete row with that key. */
  lemma {:induction false} TableLastWins(rows: seq<Row>, i: int, k: string)
    requires LastEntry(rows, i, k)
    ensures k in TableMetadata(rows) && TableMetadata(rows)[k] == rows[i].value.value
  {
    var n := |rows| - 1;
    if i < n {
      assert LastEntry(rows[..n], i, k);
      TableLastWins(rows[..n], i, k);
    }
  }

  /** Appending a row with a missing cell leaves the metadata unchanged. */
  lemma IncompleteRowIgnored(rows: seq<Row>, row: Row)
    requires row.key.None? || row.value.None?
    ensures TableMetadata(rows + [row]) == TableMetadata(rows)
  {
    assert (rows + [row])[..|rows|] == rows;
  }

  /** Appending a complete row sets its key to its value, whatever came before. */
  lemma LastRowWins(rows: seq<Row>, k: string, v: string)
    ensures TableMetadata(rows + [Row(Some(k), Some(v))])[k] == v
  {
    var all := rows + [Row(Some(k), Some(v))];
    assert Entry(all[|rows|], k);
  }
}
