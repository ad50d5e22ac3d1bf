/** `BigtableBlockReader.Read` in its own form: a retry loop around a row callback that updates
    the variables it captures. Each method is proved to do what ReadSpec says. */
module BlockReader {
  import opened Basics
  import opened RowKeys
  import opened BlockRows
  import S = ReadSpec

  /** One call of `Read`, with the variables its callback captures. `emitted` records the blocks
      handed to `processBlock`. */
  class ReadSession {
    const stopBlockNum: uint64
    const maxConnAttempt: uint64
    const decode: Decoder
    const processBlock: seq<Block> -> bool

    var startBlockNum: uint64
    var attempts: nat
    var seenStartBlock: bool
    var lastSeenBlock: Option<Block>
    var fatalError: Option<S.Cause>
    var emitted: seq<Block>

    constructor (start: uint64, stop: uint64, maxAttempts: uint64, decode: Decoder, processBlock: seq<Block> -> bool)
      ensures View() == S.Init(start) && attempts == 0
      ensures Config() == S.Config(stop, maxAttempts, RowReader(decode), Slot, processBlock)
    {
      this.stopBlockNum, this.maxConnAttempt := stop, maxAttempts;
      this.decode, this.processBlock := decode, processBlock;
      startBlockNum, attempts := start, 0;
      seenStartBlock, lastSeenBlock, fatalError, emitted := false, None, None, [];
    }

    ghost function Config(): S.Config
    {
      S.Config(stopBlockNum, maxConnAttempt, RowReader(decode), Slot, processBlock)
    }

    ghost function View(): S.State
      reads this
    {
      S.State(startBlockNum, seenStartBlock, lastSeenBlock, fatalError, emitted)
    }

    /** The row callback. */
    method OnRow(row: Row) returns (verdict: S.Verdict)
      modifies this
      ensures (View(), verdict) == S.OnRow(Config(), old(View()), row)
      ensures attempts == old(attempts)
    {
      var result := ProcessRow(decode, row);
      match result
      case Crash => return S.Crashing;
      case Unreadable =>
        fatalError := Some(S.RowUnreadable);
        return S.Stop;
      case Good(blk) =>
        if !seenStartBlock {
          if blk.slot < startBlockNum {
            return S.More;
          }
          seenStartBlock := true;
        }
        if lastSeenBlock.Some? && lastSeenBlock.value.hash == blk.hash {
          return S.More;
        }
        if lastSeenBlock.Some? && lastSeenBlock.value.hash != blk.prevHash {
          return S.Stop;
        }
        lastSeenBlock := Some(blk);
        emitted := emitted + [blk];
        if !processBlock(emitted) {
          fatalError := Some(S.SinkRefused);
          return S.Stop;
        }
        if stopBlockNum != 0 && blk.slot > stopBlockNum {
          return S.Stop;
        }
        return S.More;
    }

    /** `table.ReadRows` with that callback. */
    method ReadRows(round: S.Round) returns (end: S.RoundEnd)
      modifies this
      ensures (View(), end) == S.ReadRows(Config(), old(View()), round)
      ensures attempts == old(attempts)
    {
      var i := 0;
      while i < |round.rows|
        invariant 0 <= i <= |round.rows|
        invariant attempts == old(attempts)
        invariant S.Deliver(Config(), old(View()), round.rows) == S.Deliver(Config(), View(), round.rows[i..])
      {
        var verdict := OnRow(round.rows[i]);
        assert round.rows[i..][1..] == round.rows[i + 1..];
        if verdict == S.Stop {
          return S.Clean;
        } else if verdict == S.Crashing {
          return S.Panicked;
        }
        i := i + 1;
      }
      return if round.fault then S.Broken else S.Clean;
    }

    /** What the loop does after `ReadRows`; a result is what `Read` returns there. */
    method Conclude(end: S.RoundEnd) returns (result: Option<S.Result>)
      modifies this`attempts
      ensures S.Turn(View(), attempts, end, result) == S.Conclude(Config(), old(View()), old(attempts), end)
    {
      if end == S.Panicked {
        return Some(S.Crashed);
      }
      if end == S.Broken {
        attempts := attempts + 1;
        if attempts >= maxConnAttempt {
          return Some(S.TooManyAttempts(attempts));
        }
        return None;
      }
      if fatalError.Some? {
        return Some(S.Fatal(fatalError.value, lastSeenBlock));
      }
      if stopBlockNum != 0 {
        return Some(S.Done);
      }
      return None;
    }

    /** One iteration of the loop in `Read`. */
    method OneRound(scan: uint64 -> S.Round) returns (end: S.RoundEnd, result: Option<S.Result>)
      modifies this
      ensures S.Turn(View(), attempts, end, result) == S.OneRound(Config(), old(View()), old(attempts), scan)
    {
      if lastSeenBlock.Some? {
        startBlockNum := lastSeenBlock.value.slot;
      }
      assert View() == S.Resume(old(View()));
      end := ReadRows(scan(startBlockNum));
      result := Conclude(end);
    }

    /** `Read`, observed for as many rounds as `env` answers. */
    method Read(env: seq<string -> S.Round>) returns (result: S.Result, ghost ends: seq<S.RoundEnd>)
      modifies this
      ensures S.Report(View(), attempts, ends, result) == S.Run(Config(), old(View()), old(attempts), BySlots(env))
    {
      ends := [];
      var n := 0;
      while n < |env|
        invariant 0 <= n <= |env|
        invariant Prepend(ends, S.Run(Config(), View(), attempts, BySlots(env)[n..]))
               == S.Run(Config(), old(View()), old(attempts), BySlots(env))
      {
        assert BySlots(env)[n..][1..] == BySlots(env)[n + 1..];
        var end, now := OneRound(BySlot(env[n]));
        n := n + 1;
        if now.Some? {
          return now.value, ends + [end];
        }
        PrependAfter(ends, end, S.Run(Config(), View(), attempts, BySlots(env)[n..]));
        ends := ends + [end];
      }
      return S.Running, ends;
    }
  }

  /** The table is asked by key; the key asked for is always one printed from a slot. */
  function BySlot(answer: string -> S.Round): uint64 -> S.Round { (slot: uint64) => answer(Key(slot)) }

  function BySlots(env: seq<string -> S.Round>): (scans: S.Environment)
    ensures |scans| == |env| && forall i :: 0 <= i < |env| ==> scans[i] == BySlot(env[i])
  {
    seq(|env|, i requires 0 <= i < |env| => BySlot(env[i]))
  }

  ghost function Prepend(ends: seq<S.RoundEnd>, o: S.Report): S.Report { o.(ends := ends + o.ends) }

  lemma PrependAfter(ends: seq<S.RoundEnd>, end: S.RoundEnd, o: S.Report)
    ensures Prepend(ends, S.After(end, o)) == Prepend(ends + [end], o)
  {
    assert ends + ([end] + o.ends) == ends + [end] + o.ends;
  }
}
