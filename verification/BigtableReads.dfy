/** The reader's promises in the table's own terms: rows kept, ordered and scanned by key. */
module BigtableReads {
  import opened Basics
  import opened RowKeys
  import opened BlockRows
  import opened ReadSpec
  import opened ReadSafety
  import opened ReadOrder
  import opened ReadOnce
  import opened BlockReader
  import opened KeyTables
  import opened ReadTheorems

  /** An append-only table under canonical keys that answers each round's scan, or part of it. */
  ghost predicate AppendOnlyTable(tables: seq<seq<Row>>, env: seq<string -> Round>)
  {
    && |tables| == |env|
    && (forall i :: 0 <= i < |tables| ==> KeyOrdered(tables[i]) && KeyServes(tables[i], env[i]))
    && (forall i, j :: 0 <= i <= j < |tables| ==> tables[i] <= tables[j])
  }

  /** What one clean scan of the table, by key, hands over. */
  function CleanPass(c: Config, table: seq<Row>, start: uint64): seq<Block>
  {
    Deliver(c, Init(start), KeyScan(table, Key(start))).0.emitted
  }

  /** The same table and answers, seen by slot. */
  lemma SeenBySlot(c: Config, decode: Decoder, tables: seq<seq<Row>>, start: uint64, env: seq<string -> Round>)
    requires FromBigtable(c, decode) && AppendOnlyTable(tables, env)
    ensures SlotsFromKeys(c) && ServedBy(c, tables, BySlots(env))
    ensures forall i :: 0 <= i < |tables| ==> KeyScan(tables[i], Key(start)) == Scan(c, tables[i], start)
  {
    ServedByKeyIsServedBySlot(c, decode, tables, env);
    forall i | 0 <= i < |tables|
      ensures KeyScan(tables[i], Key(start)) == Scan(c, tables[i], start)
    {
      KeyScanIsScan(c, decode, tables[i], start);
    }
  }

  /** A faulty, retried read hands over a prefix of what one clean scan of the table does, each slot
      once and in increasing order; after a clean round it has handed over all of it. */
  lemma ReadIsOneCleanScan(c: Config, decode: Decoder, tables: seq<seq<Row>>, start: uint64, env: seq<string -> Round>)
    requires FromBigtable(c, decode) && AppendOnlyTable(tables, env) && tables != []
    ensures
      var o := Read(c, start, BySlots(env));
      && o.state.emitted <= CleanPass(c, Last(tables), start)
      && Increasing(o.state.emitted)
      && |o.ends| <= |tables|
      && (o.ends != [] && Last(o.ends).Clean? ==> o.state.emitted == CleanPass(c, tables[|o.ends| - 1], start))
  {
    SeenBySlot(c, decode, tables, start, env);
    LastIsWhole(c, tables, start, BySlots(env));
  }

  lemma LastIsWhole(c: Config, tables: seq<seq<Row>>, start: uint64, env: Environment)
    requires SlotsFromKeys(c) && ServedBy(c, tables, env) && tables != []
    ensures
      var o := Read(c, start, env);
      && o.state.emitted <= CleanScan(c, Last(tables), start).emitted
      && Increasing(o.state.emitted)
      && |o.ends| <= |tables|
      && (o.ends != [] && Last(o.ends).Clean? ==>
            o.state.emitted == CleanScan(c, tables[|o.ends| - 1], start).emitted)
  {
    var table := tables[|tables| - 1];
    assert forall i :: 0 <= i < |tables| ==> tables[i] <= table;
    ExactlyOnce(c, tables, table, start, env);
    var ends := Read(c, start, env).ends;
    if ends != [] && Last(ends).Clean? { CleanRoundCatchesUp(c, tables, start, env); }
  }

  /** A bounded read that returns nil is missing nothing from the start up to the first row above
      the stop if and only if those rows decode and are linked. */
  lemma BoundedReadMissesNothingIffLinked(c: Config, decode: Decoder, tables: seq<seq<Row>>, start: uint64,
                                          env: seq<string -> Round>)
    requires FromBigtable(c, decode) && AppendOnlyTable(tables, env)
    requires Read(c, start, BySlots(env)).result.Done?
    ensures
      var o := Read(c, start, BySlots(env));
      && 0 < |o.ends| <= |tables|
      && var rows := KeyScan(tables[|o.ends| - 1], Key(start));
         (Complete(c, rows, o.state.emitted) <==> Linked(c, rows))
  {
    SeenBySlot(c, decode, tables, start, env);
    BoundedReadComplete(c, tables, start, BySlots(env));
  }

  /** What any scan of any table may return: canonical rows in key order from `key` on, with the
      hash settled for their slot. */
  ghost predicate KeyOrderedFrom(c: Config, key: string, rows: seq<Row>, hashAt: uint64 -> string)
  {
    && KeyOrdered(rows)
    && (forall row :: row in rows ==> InRange(key, RowKey(row)))
    && (forall row :: row in rows && c.read(row).Good? ==> c.read(row).blk.hash == hashAt(Slot(row)))
  }

  /** Emitted slots strictly increase over the whole run, whatever else the table does. */
  lemma SlotsIncreaseAcrossReconnects(c: Config, decode: Decoder, start: uint64, env: seq<string -> Round>,
                                      hashAt: uint64 -> string)
    requires FromBigtable(c, decode)
    requires forall n, key: string :: 0 <= n < |env| ==> KeyOrderedFrom(c, key, env[n](key).rows, hashAt)
    ensures Increasing(Read(c, start, BySlots(env)).state.emitted)
  {
    ProcessRowTakesSlotsFromKeys(c, decode);
    var scans := BySlots(env);
    forall n, slot: uint64 | 0 <= n < |scans|
      ensures InOrderFrom(c, slot, scans[n](slot).rows, hashAt)
    {
      var rows := env[n](Key(slot)).rows;
      assert scans[n](slot).rows == rows;
      assert KeyOrderedFrom(c, Key(slot), rows, hashAt);
      KeyOrderIsSlotOrder(c, decode, rows);
      forall row | row in rows
        ensures slot <= c.filed(row)
      {
        KeyOrder(slot, Slot(row));
      }
    }
    EmittedSlotsIncrease(c, start, scans, hashAt);
  }

  /** `NewBigtableReader` and `Read` on such a table: what the session has handed to `processBlock`. */
  method ReadTable(start: uint64, stop: uint64, maxAttempts: uint64, decode: Decoder,
                   processBlock: seq<Block> -> bool, env: seq<string -> Round>, ghost tables: seq<seq<Row>>)
    returns (session: ReadSession, result: Result, ghost ends: seq<RoundEnd>)
    requires AppendOnlyTable(tables, env) && tables != []
    ensures fresh(session) && session.Config() == Config(stop, maxAttempts, RowReader(decode), Slot, processBlock)
    ensures Chain(session.emitted) && Increasing(session.emitted)
    ensures session.emitted <= CleanPass(session.Config(), Last(tables), start)
    ensures |ends| <= |tables|
    ensures ends != [] && Last(ends).Clean? ==>
              session.emitted == CleanPass(session.Config(), tables[|ends| - 1], start)
    ensures result.Done? <==> stop != 0 && ends != [] && Last(ends).Clean? && session.fatalError.None?
    ensures result.Fatal? <==> ends != [] && Last(ends).Clean? && session.fatalError.Some?
    ensures result.Crashed? <==> ends != [] && Last(ends).Panicked?
    ensures result.TooManyAttempts? <==> Faults(ends) == Allowed(session.Config())
    ensures result.Running? ==> |ends| == |env|
    ensures result.Done? ==>
              && ends != []
              && var rows := KeyScan(tables[|ends| - 1], Key(start));
                 (Complete(session.Config(), rows, session.emitted) <==> Linked(session.Config(), rows))
    ensures result == Fatal(SinkRefused, session.lastSeenBlock) <==>
            session.emitted != [] && !processBlock(session.emitted)
  {
    session := new ReadSession(start, stop, maxAttempts, decode, processBlock);
    result, ends := session.Read(env);
    ghost var c := session.Config();
    SessionIsFromBigtable(session);
    ReadIsOneCleanScan(c, decode, tables, start, env);
    ChainSafety(c, start, BySlots(env));
    FatalErrorIsFinal(c, start, BySlots(env));
    ReadReturns(c, start, BySlots(env));
    if result.Done? { BoundedReadMissesNothingIffLinked(c, decode, tables, start, env); }
  }
}
