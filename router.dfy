/** The router of the service tests: it hands a block's notified signals to
    the receivers the service execution lists for that output, and records
    every signal each block was given, per block and per input. */
module ServiceTestRouting {
  import opened Signals

  /** The output and input name the execution uses for "no name". */
  const DefaultTerminal: string := "__default_terminal_value"

  /** One receiver of an output: the block and the input it arrives on. */
  datatype Receiver = Receiver(name: string, input: string)

  /** A block of the execution and its receivers by output name. */
  datatype Entry = Entry(name: string, receivers: map<string, seq<Receiver>>)

  /** How a notification ends. */
  datatype Routed = Delivered | IndexError | KeyError(block: string)

  /** The first execution entry named `name`. */
  function FirstEntry(execution: seq<Entry>, name: string): (r: Option<Entry>)
    ensures r.None? <==> forall i :: 0 <= i < |execution| ==> execution[i].name != name
    ensures r.Some? ==> exists i :: 0 <= i < |execution| && execution[i] == r.value && execution[i].name == name &&
                                    forall j :: 0 <= j < i ==> execution[j].name != name
  {
    if execution == [] then None
    else if execution[0].name == name then Some(execution[0])
    else
      var r := FirstEntry(execution[1..], name);
      assert forall i :: 0 < i < |execution| ==> execution[i] == execution[1..][i - 1];
      if r.Some? then
        ghost var k :| 0 <= k < |execution[1..]| && execution[1..][k] == r.value && execution[1..][k].name == name &&
                       forall j :: 0 <= j < k ==> execution[1..][j].name != name;
        assert execution[k + 1] == r.value;
        assert forall j :: 0 < j < k + 1 ==> execution[j] == execution[1..][j - 1];
        r
      else r
  }

  /** The receivers of an output: those listed for its name, else those of
      the default output, else none; no receivers at all when the block
      lists none. An output without a name always takes the default. */
  function ReceiversFor(entry: Entry, outputId: Option<string>): seq<Receiver>
  {
    var all := entry.receivers;
    if all == map[] then []
    else if outputId.Some? && outputId.value in all then all[outputId.value]
    else if DefaultTerminal in all then all[DefaultTerminal]
    else []
  }

  /** The input a block's process_signals is called with: none for the
      default input. */
  function InputOf(r: Receiver): Option<string>
  {
    if r.input == DefaultTerminal then None else Some(r.input)
  }

  /** What the wrapper around process_signals keeps. */
  datatype Records = Records(processed: map<string, seq<Signal>>,
                             processedInput: map<(string, Option<string>), seq<Signal>>)

  function Get<K>(m: map<K, seq<Signal>>, k: K): seq<Signal>
  {
    if k in m then m[k] else []
  }

  /** One call of a block's process_signals through the wrapper: its
      signals are appended under the block and under the block's input,
      whether or not the block raised. */
  function Record(rec: Records, block: string, input: Option<string>, signals: seq<Signal>): Records
  {
    Records(rec.processed[block := Get(rec.processed, block) + signals],
            rec.processedInput[(block, input) := Get(rec.processedInput, (block, input)) + signals])
  }

  /** The records after delivering `signals` to each receiver in turn. */
  function RecordAll(rec: Records, rs: seq<Receiver>, signals: seq<Signal>): Records
  {
    if rs == [] then rec
    else
      var last := rs[|rs| - 1];
      Record(RecordAll(rec, rs[..|rs| - 1], signals), last.name, InputOf(last), signals)
  }

  /** How many receivers reach the blocks: up to the first one naming a
      block the router does not have. */
  function Reached(rs: seq<Receiver>, blocks: set<string>): (n: nat)
    ensures n <= |rs|
    ensures forall i :: 0 <= i < n ==> rs[i].name in blocks
    ensures n < |rs| ==> rs[n].name !in blocks
  {
    if rs == [] || rs[0].name !in blocks then 0
    else
      var n := Reached(rs[1..], blocks);
      assert forall i :: 0 < i < |rs| ==> rs[i] == rs[1..][i - 1];
      1 + n
  }

  /** `signals` repeated `n` times. */
  function Repeat(signals: seq<Signal>, n: nat): seq<Signal>
  {
    if n == 0 then [] else Repeat(signals, n - 1) + signals
  }

  /** How many receivers name `block`. */
  function Occurrences(rs: seq<Receiver>, block: string): nat
  {
    if rs == [] then 0
    else Occurrences(rs[..|rs| - 1], block) + (if rs[|rs| - 1].name == block then 1 else 0)
  }

  /** How many receivers name `block` on `input`. */
  function InputOccurrences(rs: seq<Receiver>, block: string, input: Option<string>): nat
  {
    if rs == [] then 0
    else InputOccurrences(rs[..|rs| - 1], block, input) +
         (if rs[|rs| - 1].name == block && InputOf(rs[|rs| - 1]) == input then 1 else 0)
  }

  /** After a delivery, each block's records hold its old records followed
      by the signals once for every receiver naming it; blocks no
      receiver names keep their records. */
  lemma {:induction false} RecordAllCounts(rec: Records, rs: seq<Receiver>, signals: seq<Signal>, block: string)
    ensures Get(RecordAll(rec, rs, signals).processed, block) ==
            Get(rec.processed, block) + Repeat(signals, Occurrences(rs, block))
  {
    if rs != [] {
      var init, last := rs[..|rs| - 1], rs[|rs| - 1];
      RecordAllCounts(rec, init, signals, block);
      RecordAllSnoc(rec, rs, signals, block);
      var n := Occurrences(init, block);
      var hit := last.name == block;
      assert Occurrences(rs, block) == n + (if hit then 1 else 0);
      AppendRepeat(Get(rec.processed, block), signals, n, hit);
    }
  }

  /** The same per input: the signals once for every receiver naming the
      block on that input. */
  lemma {:induction false} RecordAllInputCounts(rec: Records, rs: seq<Receiver>, signals: seq<Signal>,
                                                block: string, input: Option<string>)
    ensures Get(RecordAll(rec, rs, signals).processedInput, (block, input)) ==
            Get(rec.processedInput, (block, input)) + Repeat(signals, InputOccurrences(rs, block, input))
  {
    if rs != [] {
      var init, last := rs[..|rs| - 1], rs[|rs| - 1];
      RecordAllInputCounts(rec, init, signals, block, input);
      RecordAllInputSnoc(rec, rs, signals, (block, input));
      var n := InputOccurrences(init, block, input);
      var hit := last.name == block && InputOf(last) == input;
      assert InputOccurrences(rs, block, input) == n + (if hit then 1 else 0);
      AppendRepeat(Get(rec.processedInput, (block, input)), signals, n, hit);
    }
  }

  /** One more receiver adds one more copy of the signals, or none. */
  lemma AppendRepeat(old0: seq<Signal>, signals: seq<Signal>, n: nat, hit: bool)
    ensures old0 + Repeat(signals, n) + (if hit then signals else []) ==
            old0 + Repeat(signals, n + (if hit then 1 else 0))
  {
    if hit {
      assert (old0 + Repeat(signals, n)) + signals == old0 + (Repeat(signals, n) + signals);
    } else {
      assert old0 + Repeat(signals, n) + [] == old0 + Repeat(signals, n);
    }
  }

  /** The record of one block after one more receiver. */
  lemma RecordAllSnoc(rec: Records, rs: seq<Receiver>, signals: seq<Signal>, block: string)
    requires rs != []
    ensures var last := rs[|rs| - 1];
      Get(RecordAll(rec, rs, signals).processed, block) ==
      Get(RecordAll(rec, rs[..|rs| - 1], signals).processed, block) +
        (if block == last.name then signals else [])
  {
  }

  /** The per-input record of one key after one more receiver. */
  lemma RecordAllInputSnoc(rec: Records, rs: seq<Receiver>, signals: seq<Signal>, k: (string, Option<string>))
    requires rs != []
    ensures var last := rs[|rs| - 1];
      Get(RecordAll(rec, rs, signals).processedInput, k) ==
      Get(RecordAll(rec, rs[..|rs| - 1], signals).processedInput, k) +
        (if k == (last.name, InputOf(last)) then signals else [])
  {
  }

  lemma RecordAllStep(rec: Records, rs: seq<Receiver>, signals: seq<Signal>, i: nat)
    requires i < |rs|
    ensures RecordAll(rec, rs[..i + 1], signals) ==
            Record(RecordAll(rec, rs[..i], signals), rs[i].name, InputOf(rs[i]), signals)
  {
    assert rs[..i + 1][..i] == rs[..i];
  }

  lemma {:induction false} RepeatLength(signals: seq<Signal>, n: nat)
    ensures |Repeat(signals, n)| == n * |signals|
  {
    if n > 0 {
      RepeatLength(signals, n - 1);
      assert n * |signals| == (n - 1) * |signals| + |signals|;
    }
  }

  /** Every delivery is recorded once under its block and once under one of
      its inputs: the aggregate record of a block grows by as much as all
      its per-input records together. */
  lemma {:induction false} OccurrencesSplit(rs: seq<Receiver>, block: string)
    ensures Occurrences(rs, block) == InputOccurrences(rs, block, None) + OtherInputs(rs, block)
  {
    if rs != [] {
      OccurrencesSplit(rs[..|rs| - 1], block);
    }
  }

  /** How many receivers name `block` on a named input. */
  function OtherInputs(rs: seq<Receiver>, block: string): nat
  {
    if rs == [] then 0
    else OtherInputs(rs[..|rs| - 1], block) +
         (if rs[|rs| - 1].name == block && InputOf(rs[|rs| - 1]).Some? then 1 else 0)
  }

  /** The receivers a notification reaches and how it ends, before any
      block is called. */
  function Route(execution: seq<Entry>, blocks: set<string>, from: string, signals: seq<Signal>,
                 outputId: Option<string>): (seq<Receiver>, Routed)
  {
    if signals == [] then ([], Delivered)
    else
      var e := FirstEntry(execution, from);
      if e.None? then ([], IndexError)
      else
        var rs := ReceiversFor(e.value, outputId);
        var n := Reached(rs, blocks);
        (rs[..n], if n < |rs| then KeyError(rs[n].name) else Delivered)
  }

  /** A notification reaches every receiver of its output exactly when all
      of them are blocks of the router; an empty list reaches nobody; a
      block missing from the execution is an error. */
  lemma RouteMeaning(execution: seq<Entry>, blocks: set<string>, from: string, signals: seq<Signal>,
                     outputId: Option<string>)
    ensures var (reached, how) := Route(execution, blocks, from, signals, outputId);
      && (signals == [] ==> reached == [] && how == Delivered)
      && (signals != [] && (forall i :: 0 <= i < |execution| ==> execution[i].name != from) ==>
            reached == [] && how == IndexError)
      && (signals != [] && FirstEntry(execution, from).Some? ==>
            var rs := ReceiversFor(FirstEntry(execution, from).value, outputId);
            && (how == Delivered <==> (forall i :: 0 <= i < |rs| ==> rs[i].name in blocks))
            && (how == Delivered ==> reached == rs)
            && (how.KeyError? ==> how.block !in blocks && reached + [rs[|reached|]] <= rs))
  {
    if signals != [] && FirstEntry(execution, from).Some? {
      var rs := ReceiversFor(FirstEntry(execution, from).value, outputId);
      var n := Reached(rs, blocks);
      if n < |rs| {
        assert !(forall i :: 0 <= i < |rs| ==> rs[i].name in blocks) by {
          assert rs[n].name !in blocks;
        }
        assert rs[..n] + [rs[n]] == rs[..n + 1];
      } else {
        assert rs[..|rs|] == rs;
      }
    }
  }

  /** The receivers reached are those before the first one that is not a
      block. */
  lemma ReachedAt(rs: seq<Receiver>, blocks: set<string>, i: int)
    requires 0 <= i <= |rs|
    requires forall j :: 0 <= j < i ==> rs[j].name in blocks
    requires i < |rs| ==> rs[i].name !in blocks
    ensures Reached(rs, blocks) == i
  {
  }

  class ServiceTestRouter {
    /** `_execution`. */
    var execution: seq<Entry>
    /** The names in `_blocks`. */
    var blocks: set<string>
    /** `_processed_signals`. */
    var processed: map<string, seq<Signal>>
    /** `processed_signals_input`, keyed by block and input. */
    var processedInput: map<(string, Option<string>), seq<Signal>>

    constructor ()
      ensures execution == [] && blocks == {} && processed == map[] && processedInput == map[]
    {
      execution := [];
      blocks := {};
      processed := map[];
      processedInput := map[];
    }

    /** `configure`: take the execution and the blocks of the service. */
    method Configure(execution: seq<Entry>, blocks: set<string>)
      modifies this`execution, this`blocks
      ensures this.execution == execution && this.blocks == blocks
    {
      this.execution := execution;
      this.blocks := blocks;
    }

    /** The wrapper around a block's process_signals. */
    method CallProcessed(block: string, input: Option<string>, signals: seq<Signal>)
      modifies this`processed, this`processedInput
      ensures Records(processed, processedInput) == Record(old(Records(processed, processedInput)), block, input, signals)
    {
      processed := processed[block := Get(processed, block) + signals];
      processedInput := processedInput[(block, input) := Get(processedInput, (block, input)) + signals];
    }

    /** `notify_signals`: deliver the signals to each receiver of the
        output in turn. */
    method NotifySignals(from: string, signals: seq<Signal>, outputId: Option<string>) returns (how: Routed)
      modifies this`processed, this`processedInput
      ensures how == Route(execution, blocks, from, signals, outputId).1
      ensures Records(processed, processedInput) ==
              RecordAll(old(Records(processed, processedInput)), Route(execution, blocks, from, signals, outputId).0, signals)
    {
      if signals == [] {
        return Delivered;
      }
      var entry := FirstEntry(execution, from);
      if entry.None? {
        return IndexError;
      }
      if entry.value.receivers == map[] {
        return Delivered;
      }
      how := Deliver(ReceiversFor(entry.value, outputId), signals);
    }

    /** The loop of `notify_signals`: call each receiving block in turn,
        stopping at the first one the router does not have. */
    method Deliver(receivers: seq<Receiver>, signals: seq<Signal>) returns (how: Routed)
      modifies this`processed, this`processedInput
      ensures var n := Reached(receivers, blocks);
        && how == (if n < |receivers| then KeyError(receivers[n].name) else Delivered)
        && Records(processed, processedInput) == RecordAll(old(Records(processed, processedInput)), receivers[..n], signals)
    {
      ghost var rec0 := Records(processed, processedInput);
      var i := 0;
      while i < |receivers|
        invariant 0 <= i <= |receivers|
        invariant forall j :: 0 <= j < i ==> receivers[j].name in blocks
        invariant Records(processed, processedInput) == RecordAll(rec0, receivers[..i], signals)
      {
        var receiver := receivers[i];
        if receiver.name !in blocks {
          ReachedAt(receivers, blocks, i);
          return KeyError(receiver.name);
        }
        RecordAllStep(rec0, receivers, signals, i);
        if receiver.input == DefaultTerminal {
          CallProcessed(receiver.name, None, signals);
        } else {
          CallProcessed(receiver.name, Some(receiver.input), signals);
        }
        i := i + 1;
      }
      ReachedAt(receivers, blocks, i);
      how := Delivered;
    }
  }
}
