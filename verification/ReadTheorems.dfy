/** What a caller of `Read` can rely on, over an append-only table answering in key order. */
module ReadTheorems {
  import opened Basics
  import opened RowKeys
  import opened BlockRows
  import opened ReadSpec
  import opened ReadSafety
  import opened ReadOrder
  import opened ReadOnce

  // ----- once each, in order, under failure -----

  lemma OnRowIncreases(c: Config, s: State, row: Row)
    requires SlotsFromKeys(c) && Increasing(s.emitted)
    requires forall i :: 0 <= i < |s.emitted| ==> s.emitted[i].slot < c.filed(row)
    ensures
      var bs := OnRow(c, s, row).0.emitted;
      Increasing(bs) && forall i :: 0 <= i < |bs| ==> bs[i].slot <= c.filed(row)
  {
  }

  lemma {:induction false} DeliverIncreases(c: Config, s: State, rows: seq<Row>)
    requires SlotsFromKeys(c) && Increasing(s.emitted) && SlotOrdered(c, rows)
    requires forall i, j :: 0 <= i < |s.emitted| && 0 <= j < |rows| ==> s.emitted[i].slot < c.filed(rows[j])
    ensures Increasing(Deliver(c, s, rows).0.emitted)
    decreases |rows|
  {
    if rows != [] {
      var (s1, v) := OnRow(c, s, rows[0]);
      OnRowIncreases(c, s, rows[0]);
      if v.More? {
        assert forall j :: 0 <= j < |rows| - 1 ==> rows[1..][j] == rows[j + 1];
        DeliverIncreases(c, s1, rows[1..]);
      }
    }
  }

  lemma {:induction false} DeliverExtends(c: Config, s: State, rows: seq<Row>)
    ensures s.emitted <= Deliver(c, s, rows).0.emitted
    decreases |rows|
  {
    if rows != [] {
      var (s1, v) := OnRow(c, s, rows[0]);
      if v.More? { DeliverExtends(c, s1, rows[1..]); }
    }
  }

  /** However the rounds are cut short, and whatever the table holds (unlinked, undecodable or
      refused rows included), the blocks handed over are a prefix of what one clean scan of the
      final table hands over, each slot once and in increasing order. */
  lemma ExactlyOnce(c: Config, tables: seq<seq<Row>>, table: seq<Row>, start: uint64, env: Environment)
    requires SlotsFromKeys(c) && ServedBy(c, tables, env) && SlotOrdered(c, table)
    requires forall i :: 0 <= i < |tables| ==> tables[i] <= table
    ensures
      var emitted := Read(c, start, env).state.emitted;
      emitted <= CleanScan(c, table, start).emitted && Increasing(emitted)
  {
    var rows := Scan(c, table, start);
    assert rows[..0] == [];
    var m := RunReplays(c, tables, start, Init(start), 0, env, table, 0);
    PassSoFar(c, table, start, m);
  }

  /** A pass cut short has handed over a prefix of what the whole pass does, in slot order. */
  lemma PassSoFar(c: Config, table: seq<Row>, start: uint64, m: nat)
    requires SlotsFromKeys(c) && SlotOrdered(c, table) && m <= |Scan(c, table, start)|
    ensures
      var emitted := Deliver(c, Init(start), Scan(c, table, start)[..m]).0.emitted;
      emitted <= CleanScan(c, table, start).emitted && Increasing(emitted)
  {
    var rows := Scan(c, table, start);
    var n := ScanIsSuffix(c, table, start);
    DeliverIncreases(c, Init(start), rows[..m]);
    assert rows == rows[..m] + rows[m..];
    DeliverAppend(c, Init(start), rows[..m], rows[m..]);
    DeliverExtends(c, Deliver(c, Init(start), rows[..m]).0, rows[m..]);
  }

  /** A read whose last round ended cleanly has caught up: it has handed over, failed on, or
      stopped at exactly what a clean scan of the table at that time would. */
  lemma CleanRoundCatchesUp(c: Config, tables: seq<seq<Row>>, start: uint64, env: Environment)
    requires SlotsFromKeys(c) && ServedBy(c, tables, env)
    requires var ends := Read(c, start, env).ends; ends != [] && Last(ends).Clean?
    ensures
      var o := Read(c, start, env);
      && |o.ends| <= |tables|
      && Same(CleanScan(c, tables[|o.ends| - 1], start), o.state)
  {
    if env != [] {
      var table := Last(tables);
      var rows := Scan(c, table, start);
      assert rows[..0] == [];
      assert forall i :: 0 <= i < |tables| ==> tables[i] <= tables[|tables| - 1];
      var m := RunReplays(c, tables, start, Init(start), 0, env, table, 0);
    }
  }

  // ----- reconnecting for a row that does not link -----

  /** A pass over anything that begins with the rows up to an unlinkable one ends before that row. */
  lemma PassEndsBeforeUnlinkable(c: Config, start: uint64, rows: seq<Row>, longer: seq<Row>, n: nat)
    requires rows <= longer && n < |rows|
    requires var (s, v) := Deliver(c, Init(start), rows[..n]); v.More? && Unlinkable(c, s, rows[n])
    ensures Deliver(c, Init(start), longer) == (Deliver(c, Init(start), rows[..n]).0, Stop)
  {
    var s := Deliver(c, Init(start), rows[..n]).0;
    DeliverKeeps(c, start, Init(start), rows[..n]);
    assert longer[..n] == rows[..n] && longer == longer[..n] + longer[n..] && longer[n..][0] == rows[n];
    DeliverAppend(c, Init(start), longer[..n], longer[n..]);
    assert OnRow(c, s, rows[n]) == (s, Stop);
  }

  /** Reconnecting never gets past an unlinkable row. Where a clean pass over `known` still wants more
      after `n` rows and the next one does not link, no run over an append-only table that holds, or
      comes to hold, those rows emits anything beyond them, however often it connects again; and a
      round that ends cleanly once they are there has emitted exactly what precedes the row. */
  lemma ReconnectingNeverHelps(c: Config, tables: seq<seq<Row>>, table: seq<Row>, known: seq<Row>, start: uint64,
                               env: Environment, n: nat)
    requires SlotsFromKeys(c) && ServedBy(c, tables, env) && SlotOrdered(c, table)
    requires known <= table && forall i :: 0 <= i < |tables| ==> tables[i] <= table
    requires n < |Scan(c, known, start)|
    requires var (s, v) := Deliver(c, Init(start), Scan(c, known, start)[..n]);
             v.More? && Unlinkable(c, s, Scan(c, known, start)[n])
    ensures
      var o := Read(c, start, env);
      var before := Deliver(c, Init(start), Scan(c, known, start)[..n]).0.emitted;
      && o.state.emitted <= before
      && (o.ends != [] && Last(o.ends).Clean? && known <= tables[|o.ends| - 1] ==> o.state.emitted == before)
  {
    var o := Read(c, start, env);
    var rows := Scan(c, known, start);
    ExactlyOnce(c, tables, table, start, env);
    ScanOfPrefix(c, known, table, start);
    PassEndsBeforeUnlinkable(c, start, rows, Scan(c, table, start), n);
    if o.ends != [] && Last(o.ends).Clean? && known <= tables[|o.ends| - 1] {
      CleanRoundCatchesUp(c, tables, start, env);
      ScanOfPrefix(c, known, tables[|o.ends| - 1], start);
      PassEndsBeforeUnlinkable(c, start, rows, Scan(c, tables[|o.ends| - 1], start), n);
    }
  }

  // ----- completeness -----

  /** Up to and including the first row filed above the stop; all of them if there is none, or no stop. */
  function Wanted(c: Config, rows: seq<Row>): seq<Row>
  {
    if rows == [] then []
    else if c.stop != 0 && c.filed(rows[0]) > c.stop then [rows[0]]
    else [rows[0]] + Wanted(c, rows[1..])
  }

  predicate Decodable(c: Config, rows: seq<Row>)
  {
    rows == [] || (c.read(rows[0]).Good? && Decodable(c, rows[1..]))
  }

  function Blocks(c: Config, rows: seq<Row>): seq<Block>
    requires Decodable(c, rows)
  {
    if rows == [] then [] else [c.read(rows[0]).blk] + Blocks(c, rows[1..])
  }

  /** Nothing wanted is missing, and nothing else was emitted. */
  predicate Complete(c: Config, rows: seq<Row>, emitted: seq<Block>)
  {
    Decodable(c, Wanted(c, rows)) && emitted == Blocks(c, Wanted(c, rows))
  }

  /** The wanted rows decode to blocks linked by hash. */
  predicate Linked(c: Config, rows: seq<Row>)
  {
    Decodable(c, Wanted(c, rows)) && Chain(Blocks(c, Wanted(c, rows)))
  }

  /** What a row that links does, unless its block is refused. */
  lemma LinkedRowIsEmitted(c: Config, s: State, row: Row)
    requires SlotsFromKeys(c) && c.read(row).Good? && s.fatal.None?
    requires s.last.Some? ==> c.read(row).blk.prevHash == s.last.value.hash && c.read(row).blk.hash != s.last.value.hash
    requires s.seen || c.read(row).blk.slot >= s.start
    ensures
      var blk := c.read(row).blk;
      var (s1, v) := OnRow(c, s, row);
      && s1.emitted == s.emitted + [blk] && s1.last == Some(blk) && s1.seen
      && (v.More? ==> s1.fatal.None?)
      && (s1.fatal.None? ==> (v.More? <==> !(c.stop != 0 && c.filed(row) > c.stop)))
  {
  }

  lemma WantedStep(c: Config, rows: seq<Row>)
    requires rows != [] && Decodable(c, Wanted(c, rows))
    ensures c.read(rows[0]).Good?
    ensures
      var bs, b := Blocks(c, Wanted(c, rows)), c.read(rows[0]).blk;
      if c.stop != 0 && c.filed(rows[0]) > c.stop then bs == [b]
      else Decodable(c, Wanted(c, rows[1..])) && bs == [b] + Blocks(c, Wanted(c, rows[1..]))
  {
    var rest := if c.stop != 0 && c.filed(rows[0]) > c.stop then [] else Wanted(c, rows[1..]);
    assert Wanted(c, rows) == [rows[0]] + rest && ([rows[0]] + rest)[1..] == rest;
  }

  lemma ChainAt(before: seq<Block>, b: Block, after: seq<Block>)
    requires Chain(before + [b] + after)
    ensures before != [] ==> b.prevHash == Last(before).hash && b.hash != Last(before).hash
  {
    var all := before + [b] + after;
    if before != [] { assert all[|before|] == b && all[|before| - 1] == Last(before); }
  }

  lemma Regroup(before: seq<Block>, b: Block, bs: seq<Block>)
    requires bs != [] && bs[0] == b
    ensures before + bs == before + [b] + bs[1..]
    ensures |bs| == 1 ==> before + bs == before + [b]
  {
  }

  /** Linked rows are all handed over, unless the pass fails for good. */
  lemma {:induction false} ChainIsDelivered(c: Config, s: State, rows: seq<Row>)
    requires SlotsFromKeys(c) && s.fatal.None? && Deliver(c, s, rows).0.fatal.None?
    requires Decodable(c, Wanted(c, rows)) && Chain(s.emitted + Blocks(c, Wanted(c, rows)))
    requires if s.last.Some? then s.emitted != [] && s.last.value == Last(s.emitted) else s.emitted == []
    requires s.seen || NoLower(c, s.start, rows)
    ensures Deliver(c, s, rows).0.emitted == s.emitted + Blocks(c, Wanted(c, rows))
    decreases |rows|
  {
    if rows != [] {
      var bs := Blocks(c, Wanted(c, rows));
      WantedStep(c, rows);
      var b := c.read(rows[0]).blk;
      assert rows[0] in rows;
      Regroup(s.emitted, b, bs);
      ChainAt(s.emitted, b, bs[1..]);
      LinkedRowIsEmitted(c, s, rows[0]);
      var (s1, v) := OnRow(c, s, rows[0]);
      if v.More? {
        assert Blocks(c, Wanted(c, rows[1..])) == bs[1..];
        ChainIsDelivered(c, s1, rows[1..]);
      }
    }
  }

  /** A read that ended its last round cleanly, and has not failed for good, has handed over every
      row from the first slot at or above the start, up to and including the first above the stop,
      exactly when those rows decode and are linked by hash. */
  lemma CompleteIffLinked(c: Config, tables: seq<seq<Row>>, start: uint64, env: Environment)
    requires SlotsFromKeys(c) && ServedBy(c, tables, env)
    requires var o := Read(c, start, env); !o.result.Fatal? && o.ends != [] && Last(o.ends).Clean?
    ensures
      var o := Read(c, start, env);
      var rows := Scan(c, tables[|o.ends| - 1], start);
      Complete(c, rows, o.state.emitted) <==> Linked(c, rows)
  {
    var o := Read(c, start, env);
    CleanRoundCatchesUp(c, tables, start, env);
    ChainSafety(c, start, env);
    FatalErrorIsFinal(c, start, env);
    var table := tables[|o.ends| - 1];
    var rows := Scan(c, table, start);
    ScanNeverGoesBelowStart(c, table, start);
    if Linked(c, rows) {
      var bs := Blocks(c, Wanted(c, rows));
      assert [] + bs == bs;
      ChainIsDelivered(c, Init(start), rows);
    }
  }

  /** A bounded read that returns nil is complete if and only if the wanted rows are linked. */
  lemma BoundedReadComplete(c: Config, tables: seq<seq<Row>>, start: uint64, env: Environment)
    requires SlotsFromKeys(c) && ServedBy(c, tables, env)
    requires Read(c, start, env).result.Done?
    ensures
      var o := Read(c, start, env);
      && o.ends != []
      && var rows := Scan(c, tables[|o.ends| - 1], start);
         (Complete(c, rows, o.state.emitted) <==> Linked(c, rows))
  {
    ReadReturns(c, start, env);
    CompleteIffLinked(c, tables, start, env);
  }

  // ----- the unlinkable row -----

  /** Two rows, at slots 1 and 2, of which the second does not name the first as its parent. */
  function UnlinkedRows(): seq<Row>
  {
    [Row([Cell(Key(1), "proto", [1])]), Row([Cell(Key(2), "proto", [2])])]
  }

  const A := Block(1, "A", "?", [])
  const B := Block(2, "B", "?", [])

  predicate ReadsUnlinked(c: Config)
  {
    c.read(UnlinkedRows()[0]) == Good(A) && c.read(UnlinkedRows()[1]) == Good(B)
  }

  /** `ProcessRow` can return those two blocks. */
  lemma UnlinkedBlocksOccur(decode: Decoder)
    requires decode(RowTypeProto, [1]) == Decoded(A) && decode(RowTypeProto, [2]) == Decoded(B)
    ensures ProcessRow(decode, UnlinkedRows()[0]) == Good(A)
    ensures ProcessRow(decode, UnlinkedRows()[1]) == Good(B)
  {
    KeyRoundTrip(1);
    KeyRoundTrip(2);
    assert "proto"[0..] == "proto";
    OtherHash("A");
    OtherHash("B");
  }

  lemma OtherHash(hash: string)
    requires |hash| == 1
    ensures KnownParent(hash).None?
  {
    assert |"Goi3t9JjgDkyULZbM2TzE5QqHP1fPeMcHNaXNFBCBv1v"| == 44;
    assert |"6UFQveZ94DUKGbcLFoyayn1QwthVfD3ZqvrM2916pHCR"| == 44;
    assert |"Fqbm7QvCTYnToXWcCw6nbkWhMmXx2Nv91LsXBrKraB43"| == 44;
    assert |"ABp9G2NaPzM6kQbeyZYCYgdzL8JN9AxSSbCQG2X1K9UF"| == 44;
    assert |"ByUxmGuaT7iQS9qGS8on5xHRjiHXcGxvwPPaTGZXQyz7"| == 44;
  }

  /** A run of `UnlinkableRowReconnectsIffUnbounded` that does not reconnect, although the comment
      above that branch says it should: nil after one round, without the second row. */
  lemma UnlinkableRowEndsBoundedRead(c: Config, env: Environment)
    requires c.stop == 10 && ReadsUnlinked(c) && c.sink([A])
    requires env != [] && env[0](1) == Round(UnlinkedRows(), false)
    ensures Read(c, 1, env) == Report(State(1, true, Some(A), None, [A]), 0, [Clean], Done)
  {
    var rows := UnlinkedRows();
    var s1 := State(1, true, Some(A), None, [A]);
    assert [] + [A] == [A];
    assert OnRow(c, Init(1), rows[0]) == (s1, More);
    assert rows[..1] == [rows[0]] && [rows[0]][1..] == [];
    assert Deliver(c, Init(1), rows[..1]) == (s1, More);
    assert A.hash != B.prevHash && A.hash != B.hash by { assert A.hash[0] == 'A' && B.prevHash[0] == '?'; }
    assert Unlinkable(c, s1, rows[1]);
    UnlinkableRowReconnectsIffUnbounded(c, 1, Init(1), 0, env, 1);
  }
}
