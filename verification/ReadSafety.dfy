/** What every run of the reader keeps, whatever rows the table returns and whenever it fails. */
module ReadSafety {
  import opened Basics
  import opened BlockRows
  import opened ReadSpec

  /** Every block names the one before it as its parent, and never repeats its hash. */
  predicate Chain(bs: seq<Block>)
  {
    forall i :: 0 < i < |bs| ==> bs[i].prevHash == bs[i - 1].hash && bs[i].hash != bs[i - 1].hash
  }

  /** Every block but the newest was accepted by `processBlock` and is at or below the stop. */
  predicate Settled(c: Config, bs: seq<Block>)
  {
    forall i :: 0 < i < |bs| ==> c.sink(bs[..i]) && (c.stop != 0 ==> bs[i - 1].slot <= c.stop)
  }

  /** The invariant of a run that began at `start`. */
  predicate Inv(c: Config, start: uint64, s: State)
  {
    && s.seen == s.last.Some?
    && (s.last.None? ==> s.emitted == [] && s.start == start)
    && (s.last.Some? ==> s.emitted != [] && s.last.value == Last(s.emitted) && s.emitted[0].slot >= start)
    && Chain(s.emitted)
    && Settled(c, s.emitted)
    && (s.fatal == Some(SinkRefused) <==> s.emitted != [] && !c.sink(s.emitted))
  }

  /** The run may go on: nothing failed for good, and the stop is not passed. */
  predicate Live(c: Config, s: State)
  {
    s.fatal.None? && (c.stop != 0 && s.emitted != [] ==> Last(s.emitted).slot <= c.stop)
  }

  // ----- one row -----

  /** The block comes next: the first at or above the start, or one that names the last as its parent
      and does not repeat it. */
  predicate ComesNext(s: State, blk: Block)
  {
    if s.last.None? then blk.slot >= s.start
    else blk.prevHash == s.last.value.hash && blk.hash != s.last.value.hash
  }

  predicate HandsOver(c: Config, s: State, row: Row)
  {
    c.read(row).Good? && ComesNext(s, c.read(row).blk)
  }

  /** What a row does, by what it holds: only a block that comes next is handed over and becomes the
      last one; the scan goes on except after a failure, an unlinkable row, or a block above the stop. */
  lemma RowOutcome(c: Config, s: State, row: Row)
    requires s.seen == s.last.Some? && s.fatal.None?
    ensures
      var (s1, v) := OnRow(c, s, row);
      var next := HandsOver(c, s, row);
      && s1.emitted == (if next then s.emitted + [c.read(row).blk] else s.emitted)
      && s1.last == (if next then Some(c.read(row).blk) else s.last)
      && s1.start == s.start
      && (v.Crashing? <==> c.read(row).Crash?)
      && (s1.fatal == Some(RowUnreadable) <==> c.read(row).Unreadable?)
      && (s1.fatal == Some(SinkRefused) <==> next && !c.sink(s1.emitted))
      && (v.Stop? <==> s1.fatal.Some? || Unlinkable(c, s, row) ||
                       (next && c.stop != 0 && c.read(row).blk.slot > c.stop))
  {
  }

  /** Until a first block is seen, rows whose blocks lie below the start are passed over. */
  lemma {:induction false} LowRowsArePassedOver(c: Config, s: State, low: seq<Row>, rows: seq<Row>)
    requires !s.seen
    requires forall i :: 0 <= i < |low| ==> c.read(low[i]).Good? && c.read(low[i]).blk.slot < s.start
    ensures Deliver(c, s, low + rows) == Deliver(c, s, rows)
    decreases |low|
  {
    if low == [] {
      assert low + rows == rows;
    } else {
      assert (low + rows)[0] == low[0] && (low + rows)[1..] == low[1..] + rows;
      LowRowsArePassedOver(c, s, low[1..], rows);
    }
  }

  // ----- what every run keeps -----

  /** One more block, linked to a history that was accepted. */
  lemma OneMore(c: Config, bs: seq<Block>, blk: Block)
    requires Chain(bs) && Settled(c, bs)
    requires bs != [] ==>
               && blk.prevHash == Last(bs).hash && blk.hash != Last(bs).hash
               && c.sink(bs) && (c.stop != 0 ==> Last(bs).slot <= c.stop)
    ensures Chain(bs + [blk]) && Settled(c, bs + [blk])
  {
    var all := bs + [blk];
    forall i | 0 < i < |all|
      ensures all[i].prevHash == all[i - 1].hash && all[i].hash != all[i - 1].hash
    {
      if i < |bs| { assert all[i] == bs[i] && all[i - 1] == bs[i - 1]; }
    }
    forall i | 0 < i < |all|
      ensures c.sink(all[..i]) && (c.stop != 0 ==> all[i - 1].slot <= c.stop)
    {
      if i < |bs| { assert all[..i] == bs[..i]; } else { assert all[..i] == bs; }
    }
  }

  lemma OnRowKeeps(c: Config, start: uint64, s: State, row: Row)
    requires Inv(c, start, s) && Live(c, s)
    ensures
      var (s1, v) := OnRow(c, s, row);
      && Inv(c, start, s1)
      && (v.More? || v.Crashing? || (c.stop == 0 && s1.fatal.None?) ==> Live(c, s1))
      && s.emitted <= s1.emitted
      && (v.Crashing? ==> s1 == s)
  {
    var (s1, v) := OnRow(c, s, row);
    if s1.emitted != s.emitted {
      var blk := c.read(row).blk;
      assert s1.emitted == s.emitted + [blk];
      OneMore(c, s.emitted, blk);
    }
  }

  lemma {:induction false} DeliverKeeps(c: Config, start: uint64, s: State, rows: seq<Row>)
    requires Inv(c, start, s) && Live(c, s)
    ensures
      var (s1, v) := Deliver(c, s, rows);
      && Inv(c, start, s1)
      && (v.More? || v.Crashing? || (c.stop == 0 && s1.fatal.None?) ==> Live(c, s1))
      && s.emitted <= s1.emitted
    decreases |rows|
  {
    if rows != [] {
      OnRowKeeps(c, start, s, rows[0]);
      var (s1, v) := OnRow(c, s, rows[0]);
      if v.More? { DeliverKeeps(c, start, s1, rows[1..]); }
    }
  }

  /** How an iteration ends, from how the delivery of its rows did. */
  lemma OneRoundEnds(c: Config, s: State, attempts: nat, answer: uint64 -> Round)
    ensures
      var s0 := Resume(s);
      var round := answer(s0.start);
      var (s1, v) := Deliver(c, s0, round.rows);
      var t := OneRound(c, s, attempts, answer);
      && t.state == s1
      && (t.end.Clean? <==> v.Stop? || (v.More? && !round.fault))
      && (t.end.Broken? <==> v.More? && round.fault)
      && (t.end.Panicked? <==> v.Crashing?)
      && (t.result.None? <==> if t.end.Clean? then s1.fatal.None? && c.stop == 0
                              else t.end.Broken? && attempts + 1 < c.maxAttempts)
      && (t.result.Some? && t.result.value.Fatal? <==> t.end.Clean? && s1.fatal.Some?)
      && (t.result.Some? && t.result.value.Fatal? ==> t.result.value == Fatal(s1.fatal.value, s1.last))
  {
    var s0 := Resume(s);
    var (s1, v) := Deliver(c, s0, answer(s0.start).rows);
  }

  lemma OneRoundKeeps(c: Config, start: uint64, s: State, attempts: nat, answer: uint64 -> Round)
    requires Inv(c, start, s) && Live(c, s)
    ensures
      var t := OneRound(c, s, attempts, answer);
      && Inv(c, start, t.state)
      && s.emitted <= t.state.emitted
      && (t.result.None? ==> Live(c, t.state))
      && (t.state.fatal.Some? <==> t.result.Some? && t.result.value.Fatal?)
      && (t.state.fatal.Some? ==> t.result == Some(Fatal(t.state.fatal.value, t.state.last)))
  {
    var s0 := Resume(s);
    DeliverKeeps(c, start, s0, answer(s0.start).rows);
    OneRoundEnds(c, s, attempts, answer);
  }

  lemma {:induction false} RunKeeps(c: Config, start: uint64, s: State, attempts: nat, env: Environment)
    requires Inv(c, start, s) && Live(c, s)
    ensures
      var o := Run(c, s, attempts, env);
      && Inv(c, start, o.state)
      && s.emitted <= o.state.emitted
      && (o.result.Running? ==> Live(c, o.state))
      && (o.state.fatal.Some? <==> o.result.Fatal?)
      && (o.result.Fatal? ==> o.result == Fatal(o.state.fatal.value, o.state.last))
    decreases |env|
  {
    if env != [] {
      OneRoundKeeps(c, start, s, attempts, env[0]);
      var t := OneRound(c, s, attempts, env[0]);
      if t.result.None? { RunKeeps(c, start, t.state, t.attempts, env[1..]); }
    }
  }

  /** Whatever rows arrive, in every round: the blocks handed to `processBlock` are linked by
      hash, start at or above the requested slot, and at most the newest lies above the stop. */
  lemma ChainSafety(c: Config, start: uint64, env: Environment)
    ensures
      var o := Read(c, start, env);
      var bs := o.state.emitted;
      && Chain(bs)
      && (bs != [] ==> bs[0].slot >= start)
      && (c.stop != 0 ==> forall i :: 0 <= i < |bs| - 1 ==> bs[i].slot <= c.stop)
      && (o.state.seen <==> o.state.last.Some?)
      && (o.state.last.Some? <==> bs != [])
      && (bs != [] ==> o.state.last == Some(Last(bs)))
  {
    RunKeeps(c, start, Init(start), 0, env);
    var bs := Read(c, start, env).state.emitted;
    forall i | 0 <= i < |bs| - 1 && c.stop != 0
      ensures bs[i].slot <= c.stop
    {
      assert c.sink(bs[..i + 1]);
    }
  }

  /** A block refused by `processBlock` is the last one it is shown, and `Read` reports exactly that. */
  lemma FatalErrorIsFinal(c: Config, start: uint64, env: Environment)
    ensures
      var o := Read(c, start, env);
      var bs := o.state.emitted;
      && (forall i :: 0 < i < |bs| ==> c.sink(bs[..i]))
      && (o.result == Fatal(SinkRefused, o.state.last) <==> bs != [] && !c.sink(bs))
      && (o.result.Fatal? <==> o.state.fatal.Some?)
      && Chain(bs)
  {
    RunKeeps(c, start, Init(start), 0, env);
  }

  /** A row that cannot be decoded ends the read at once: the outcome is that failure, whatever
      rows or rounds would have followed. */
  lemma UnreadableRowIsFinal(c: Config, s: State, attempts: nat, env: Environment, n: nat)
    requires env != []
    requires
      var s0 := Resume(s);
      var rows := env[0](s0.start).rows;
      n < |rows| && Deliver(c, s0, rows[..n]).1.More? && c.read(rows[n]).Unreadable?
    ensures
      var s0 := Resume(s);
      var before := Deliver(c, s0, env[0](s0.start).rows[..n]).0;
      var o := Run(c, s, attempts, env);
      && o.ends == [Clean]
      && o.result == Fatal(RowUnreadable, before.last)
      && o.state.emitted == before.emitted
  {
    var s0 := Resume(s);
    var rows := env[0](s0.start).rows;
    assert rows == rows[..n] + rows[n..];
    DeliverAppend(c, s0, rows[..n], rows[n..]);
  }

  /** A row on which `ProcessRow` panics ends the read in that panic, whatever would have followed. */
  lemma CrashingRowIsFinal(c: Config, s: State, attempts: nat, env: Environment, n: nat)
    requires env != []
    requires
      var s0 := Resume(s);
      var rows := env[0](s0.start).rows;
      n < |rows| && Deliver(c, s0, rows[..n]).1.More? && c.read(rows[n]).Crash?
    ensures
      var s0 := Resume(s);
      var before := Deliver(c, s0, env[0](s0.start).rows[..n]).0;
      Run(c, s, attempts, env) == Report(before, attempts, [Panicked], Crashed)
  {
    var s0 := Resume(s);
    var rows := env[0](s0.start).rows;
    assert rows == rows[..n] + rows[n..];
    DeliverAppend(c, s0, rows[..n], rows[n..]);
  }

  /** Where the callback stops for a row that does not link, it stops, with nothing changed; and the
      reader connects again exactly when it reads without a stop. With a stop it returns nil. */
  lemma UnlinkableRowReconnectsIffUnbounded(c: Config, start: uint64, s: State, attempts: nat, env: Environment, n: nat)
    requires Inv(c, start, s) && Live(c, s) && env != []
    requires
      var s0 := Resume(s);
      var rows := env[0](s0.start).rows;
      n < |rows| && Deliver(c, s0, rows[..n]).1.More? && Unlinkable(c, Deliver(c, s0, rows[..n]).0, rows[n])
    ensures
      var s0 := Resume(s);
      var before := Deliver(c, s0, env[0](s0.start).rows[..n]).0;
      && OneRound(c, s, attempts, env[0]) == Turn(before, attempts, Clean, if c.stop == 0 then None else Some(Done))
      && Run(c, s, attempts, env) ==
         if c.stop == 0 then After(Clean, Run(c, before, attempts, env[1..]))
         else Report(before, attempts, [Clean], Done)
  {
    var s0 := Resume(s);
    var rows := env[0](s0.start).rows;
    var before := Deliver(c, s0, rows[..n]).0;
    assert rows == rows[..n] + rows[n..];
    DeliverAppend(c, s0, rows[..n], rows[n..]);
    DeliverKeeps(c, start, s0, rows[..n]);
    assert OnRow(c, before, rows[n]) == (before, Stop);
  }

  /** The row decodes, to a block that neither repeats nor names the last one. */
  predicate Unlinkable(c: Config, s: State, row: Row)
  {
    && c.read(row).Good?
    && s.last.Some?
    && c.read(row).blk.hash != s.last.value.hash
    && c.read(row).blk.prevHash != s.last.value.hash
  }

  lemma {:induction false} DeliverAppend(c: Config, s: State, a: seq<Row>, b: seq<Row>)
    ensures
      var (s1, v) := Deliver(c, s, a);
      Deliver(c, s, a + b) == if v.More? then Deliver(c, s1, b) else (s1, v)
    decreases |a|
  {
    if a == [] {
      assert a + b == b;
    } else {
      assert (a + b)[1..] == a[1..] + b;
      var (s1, v) := OnRow(c, s, a[0]);
      if v.More? { DeliverAppend(c, s1, a[1..], b); }
    }
  }

  // ----- what a read returns -----

  lemma {:induction false} RunReturns(c: Config, s: State, attempts: nat, env: Environment)
    ensures
      var o := Run(c, s, attempts, env);
      var ended := o.ends != [];
      && (o.result.Done? <==> c.stop != 0 && ended && Last(o.ends).Clean? && o.state.fatal.None?)
      && (o.result.Fatal? <==> ended && Last(o.ends).Clean? && o.state.fatal.Some?)
      && (o.result.Crashed? <==> ended && Last(o.ends).Panicked?)
      && (o.result.TooManyAttempts? ==> ended && Last(o.ends).Broken?)
      && (o.result.Running? ==> |o.ends| == |env|)
    decreases |env|
  {
    if env != [] {
      OneRoundEnds(c, s, attempts, env[0]);
      var t := OneRound(c, s, attempts, env[0]);
      if t.result.None? { RunReturns(c, t.state, t.attempts, env[1..]); }
    }
  }

  /** `Read` returns nil exactly when it has a stop and its last round ended cleanly with nothing
      failed for good, whatever its last block; it fails for good exactly when that round did, and
      panics exactly when that round did. The attempts error is the business of `BoundedRetries`. */
  lemma ReadReturns(c: Config, start: uint64, env: Environment)
    ensures
      var o := Read(c, start, env);
      var ended := o.ends != [];
      && (o.result.Done? <==> c.stop != 0 && ended && Last(o.ends).Clean? && o.state.fatal.None?)
      && (o.result.Fatal? <==> ended && Last(o.ends).Clean? && o.state.fatal.Some?)
      && (o.result.Crashed? <==> ended && Last(o.ends).Panicked?)
      && (o.result.TooManyAttempts? <==> Faults(o.ends) == Allowed(c))
      && (o.result.Running? ==> |o.ends| == |env|)
  {
    RunReturns(c, Init(start), 0, env);
    BoundedRetries(c, start, env);
  }

  // ----- retries -----

  function Faults(ends: seq<RoundEnd>): nat
  {
    if ends == [] then 0 else (if ends[0].Broken? then 1 else 0) + Faults(ends[1..])
  }

  function Allowed(c: Config): nat { if c.maxAttempts == 0 then 1 else c.maxAttempts }

  lemma FaultsStep(end: RoundEnd, ends: seq<RoundEnd>)
    ensures Faults([end] + ends) == (if end.Broken? then 1 else 0) + Faults(ends)
  {
    assert ([end] + ends)[1..] == ends;
  }

  lemma {:induction false} RunRetries(c: Config, s: State, attempts: nat, env: Environment)
    requires attempts < Allowed(c)
    ensures
      var o := Run(c, s, attempts, env);
      && o.attempts == attempts + Faults(o.ends)
      && o.attempts <= Allowed(c)
      && (o.attempts == Allowed(c) <==> o.result.TooManyAttempts?)
      && (o.result.TooManyAttempts? ==> o.result.attempts == o.attempts && Last(o.ends).Broken?)
    decreases |env|
  {
    if env != [] {
      var t := OneRound(c, s, attempts, env[0]);
      if t.result.None? {
        RunRetries(c, t.state, t.attempts, env[1..]);
        FaultsStep(t.end, Run(c, t.state, t.attempts, env[1..]).ends);
      } else {
        FaultsStep(t.end, []);
        assert [t.end] + [] == [t.end];
      }
    }
  }

  /** With a stop, only a broken round is followed by another. */
  lemma {:induction false} BoundedRunIsShort(c: Config, s: State, attempts: nat, env: Environment)
    requires attempts < Allowed(c) && c.stop != 0
    ensures
      var o := Run(c, s, attempts, env);
      && Faults(o.ends) >= |o.ends| - 1
      && (o.result.TooManyAttempts? ==> Faults(o.ends) == |o.ends|)
      && (|env| >= Allowed(c) - attempts ==> !o.result.Running?)
    decreases |env|
  {
    if env != [] {
      OneRoundEnds(c, s, attempts, env[0]);
      var t := OneRound(c, s, attempts, env[0]);
      if t.result.None? {
        BoundedRunIsShort(c, t.state, t.attempts, env[1..]);
        FaultsStep(t.end, Run(c, t.state, t.attempts, env[1..]).ends);
      } else {
        FaultsStep(t.end, []);
        assert [t.end] + [] == [t.end];
      }
    }
  }

  /** `Read` sees at most max(1, maxConnAttempt) failing rounds, and fails with the attempts error
      exactly when it sees that many. The counter therefore never leaves 64 bits. */
  lemma BoundedRetries(c: Config, start: uint64, env: Environment)
    ensures
      var o := Read(c, start, env);
      && Faults(o.ends) <= Allowed(c)
      && (o.result.TooManyAttempts? <==> Faults(o.ends) == Allowed(c))
      && (o.result.TooManyAttempts? ==> o.result.attempts == Faults(o.ends) && Last(o.ends).Broken?)
      && o.attempts == Faults(o.ends) < 0x1_0000_0000_0000_0000
  {
    RunRetries(c, Init(start), 0, env);
  }

  /** A bounded read is over after at most max(1, maxConnAttempt) rounds, all but the last broken. */
  lemma BoundedReadTerminates(c: Config, start: uint64, env: Environment)
    requires c.stop != 0 && |env| >= Allowed(c)
    ensures
      var o := Read(c, start, env);
      && !o.result.Running?
      && |o.ends| <= Allowed(c)
      && Faults(o.ends) >= |o.ends| - 1
  {
    RunRetries(c, Init(start), 0, env);
    BoundedRunIsShort(c, Init(start), 0, env);
  }
}
