/** From the table's keys to the reader's slots: a scan by key over rows in key order is a scan by
    slot over rows in slot order, so what is proved about slots holds of the table. */
module KeyTables {
  import opened Basics
  import opened RowKeys
  import opened BlockRows
  import opened ReadSpec
  import opened ReadOrder
  import opened ReadOnce
  import opened BlockReader

  /** The row is filed under a key of the form the reader prints. */
  predicate Canonical(row: Row)
  {
    RowSlot(row).Some? && row.x[0].key == Key(Slot(row))
  }

  function RowKey(row: Row): string
  {
    if row.x == [] then "" else row.x[0].key
  }

  predicate KeyOrdered(rows: seq<Row>)
  {
    && (forall row :: row in rows ==> Canonical(row))
    && (forall i, j :: 0 <= i < j < |rows| ==> KeyLess(RowKey(rows[i]), RowKey(rows[j])))
  }

  /** What `ReadRows` has to return for the range from `key` on. */
  function KeyScan(table: seq<Row>, key: string): seq<Row>
  {
    if table == [] then [] else
      var rest := KeyScan(table[..|table| - 1], key);
      if InRange(key, RowKey(Last(table))) then rest + [Last(table)] else rest
  }

  ghost predicate KeyServes(table: seq<Row>, answer: string -> Round)
  {
    forall key: string ::
      && answer(key).rows <= KeyScan(table, key)
      && (!answer(key).fault ==> answer(key).rows == KeyScan(table, key))
  }

  /** The configuration that `BigtableBlockReader` runs with. */
  ghost predicate FromBigtable(c: Config, decode: Decoder)
  {
    && (forall row: Row :: c.filed(row) == Slot(row))
    && (forall row: Row :: c.read(row) == ProcessRow(decode, row))
  }

  lemma SessionIsFromBigtable(session: ReadSession)
    ensures FromBigtable(session.Config(), session.decode)
  {
  }

  lemma ProcessRowTakesSlotsFromKeys(c: Config, decode: Decoder)
    requires FromBigtable(c, decode)
    ensures SlotsFromKeys(c)
  {
  }

  lemma KeyOrderIsSlotOrder(c: Config, decode: Decoder, rows: seq<Row>)
    requires FromBigtable(c, decode) && KeyOrdered(rows)
    ensures SlotOrdered(c, rows)
  {
    forall i, j | 0 <= i < j < |rows|
      ensures c.filed(rows[i]) < c.filed(rows[j])
    {
      assert rows[i] in rows && rows[j] in rows;
      KeyOrder(Slot(rows[i]), Slot(rows[j]));
    }
  }

  lemma {:induction false} KeyScanIsScan(c: Config, decode: Decoder, table: seq<Row>, slot: uint64)
    requires FromBigtable(c, decode) && forall row :: row in table ==> Canonical(row)
    ensures KeyScan(table, Key(slot)) == Scan(c, table, slot)
  {
    if table != [] {
      KeyScanIsScan(c, decode, table[..|table| - 1], slot);
      assert Last(table) in table;
      KeyOrder(slot, Slot(Last(table)));
    }
  }

  /** An append-only table that keeps and serves its rows by key is one that does so by slot: all
      that ReadOrder, ReadOnce and ReadTheorems assume of the environment. */
  lemma ServedByKeyIsServedBySlot(c: Config, decode: Decoder, tables: seq<seq<Row>>, env: seq<string -> Round>)
    requires FromBigtable(c, decode) && |tables| == |env|
    requires forall i :: 0 <= i < |tables| ==> KeyOrdered(tables[i]) && KeyServes(tables[i], env[i])
    requires forall i, j :: 0 <= i <= j < |tables| ==> tables[i] <= tables[j]
    ensures SlotsFromKeys(c) && ServedBy(c, tables, BySlots(env))
  {
    ProcessRowTakesSlotsFromKeys(c, decode);
    var scans := BySlots(env);
    forall i | 0 <= i < |tables|
      ensures SlotOrdered(c, tables[i]) && Serves(c, tables[i], scans[i])
    {
      KeyOrderIsSlotOrder(c, decode, tables[i]);
      forall slot: uint64
        ensures
          && scans[i](slot).rows <= Scan(c, tables[i], slot)
          && (!scans[i](slot).fault ==> scans[i](slot).rows == Scan(c, tables[i], slot))
      {
        KeyScanIsScan(c, decode, tables[i], slot);
        assert scans[i](slot) == env[i](Key(slot));
      }
    }
  }
}
