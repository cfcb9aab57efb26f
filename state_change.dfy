/** `StateChange`: notifies one signal for every change of a group's
    state, carrying the previous and the new state. */
module StateChangeBlock {
  import opened Signals
  import opened StateBaseBlock

  /** The signal notified for change `c` of group `g`, triggered by
      `signal`: the change on a fresh signal when `exclude` is set, else on
      the triggering signal. */
  function ChangeSignal(signal: Signal, c: Change, g: Value, stateName: string, exclude: bool): Signal
  {
    var base: Signal := if exclude then map[] else signal;
    base["prev_" + stateName := c.prev][stateName := c.next]["group" := g]
  }

  /** A change signal holds the group, the new state under `stateName`
      and the previous one under `prev_<stateName>` (the later attribute
      wins where names coincide); with `exclude` nothing else, without it
      every other attribute of the triggering signal. */
  lemma ChangeSignalFields(signal: Signal, c: Change, g: Value, stateName: string, exclude: bool)
    ensures var out := ChangeSignal(signal, c, g, stateName, exclude);
      && "group" in out && out["group"] == g
      && stateName in out && (stateName != "group" ==> out[stateName] == c.next)
      && ("prev_" + stateName) in out
      && ("prev_" + stateName != "group" ==> out["prev_" + stateName] == c.prev)
      && (exclude ==> out.Keys == {"prev_" + stateName, stateName, "group"})
      && (!exclude ==> forall a :: a in signal && a != "prev_" + stateName && a != stateName && a != "group" ==>
            a in out && out[a] == signal[a])
  {
    assert stateName != "prev_" + stateName by {
      assert |"prev_" + stateName| == |stateName| + 5;
    }
  }

  /** The signals a group's batch notifies, starting from state `prev`. */
  function Notified(f: Expr, prev: Value, signals: seq<Signal>, g: Value, stateName: string,
                    exclude: bool): seq<Signal>
  {
    if signals == [] then []
    else
      var before := signals[..|signals| - 1];
      var last := signals[|signals| - 1];
      var c := ChangeOf(Settle(f, prev, before), f(last));
      Notified(f, prev, before, g, stateName, exclude)
        + (if c.Some? then [ChangeSignal(last, c.value, g, stateName, exclude)] else [])
  }

  /** One notified signal per reported change, in order: the i-th is the
      change signal of the i-th change, built on one of the batch's
      signals. */
  lemma {:induction false} NotifiedAreChanges(f: Expr, prev: Value, signals: seq<Signal>, g: Value,
                                              stateName: string, exclude: bool)
    ensures var out := Notified(f, prev, signals, g, stateName, exclude);
      var cs := Changes(f, prev, signals);
      && |out| == |cs|
      && forall i :: 0 <= i < |out| ==>
           exists j :: 0 <= j < |signals| && out[i] == ChangeSignal(signals[j], cs[i], g, stateName, exclude)
    decreases |signals|
  {
    if signals != [] {
      var before := signals[..|signals| - 1];
      var last := signals[|signals| - 1];
      NotifiedAreChanges(f, prev, before, g, stateName, exclude);
      var out0 := Notified(f, prev, before, g, stateName, exclude);
      var cs0 := Changes(f, prev, before);
      var out := Notified(f, prev, signals, g, stateName, exclude);
      var cs := Changes(f, prev, signals);
      forall i | 0 <= i < |out|
        ensures exists j :: 0 <= j < |signals| && out[i] == ChangeSignal(signals[j], cs[i], g, stateName, exclude)
      {
        if i < |out0| {
          var j :| 0 <= j < |before| && out0[i] == ChangeSignal(before[j], cs0[i], g, stateName, exclude);
          assert out[i] == out0[i] && cs[i] == cs0[i] && signals[j] == before[j];
        } else {
          assert out[i] == ChangeSignal(signals[|signals| - 1], cs[i], g, stateName, exclude);
        }
      }
    }
  }

  class StateChange {
    const state: StateBase
    /** `state_name`. */
    const stateName: string
    /** `exclude`. */
    const exclude: bool

    constructor (state: StateBase, stateName: string, exclude: bool)
      ensures this.state == state && this.stateName == stateName && this.exclude == exclude
    {
      this.state := state;
      this.stateName := stateName;
      this.exclude := exclude;
    }

    /** `_process_group`: updates the group's state signal by signal and
        returns the signals for the changes. */
    method ProcessGroup(signals: seq<Signal>, g: Value) returns (out: seq<Signal>)
      requires state.Valid()
      modifies state`groups, state`states
      ensures state.Valid()
      ensures var prev := StateOf(old(state.states), g, state.initial);
        && out == Notified(state.stateExpr, prev, signals, g, stateName, exclude)
        && (signals != [] ==> state.states == old(state.states)[g := Settle(state.stateExpr, prev, signals)])
      ensures signals == [] ==> state.states == old(state.states)
    {
      ghost var prev := StateOf(state.states, g, state.initial);
      ghost var s0 := state.states;
      out := [];
      var i := 0;
      while i < |signals|
        invariant 0 <= i <= |signals|
        invariant state.Valid()
        invariant out == Notified(state.stateExpr, prev, signals[..i], g, stateName, exclude)
        invariant i == 0 ==> state.states == s0
        invariant i > 0 ==> state.states == s0[g := Settle(state.stateExpr, prev, signals[..i])]
      {
        out := ProcessOne(signals, i, g, prev, s0, out);
        i := i + 1;
      }
      assert signals[..|signals|] == signals;
    }

    /** One pass of the loop of `_process_group`, over `signals[i]`: the
        state moves one evaluation on, and a change notifies its signal. */
    method ProcessOne(signals: seq<Signal>, i: int, g: Value, ghost prev: Value,
                      ghost s0: map<Value, Value>, out: seq<Signal>) returns (out': seq<Signal>)
      requires 0 <= i < |signals| && state.Valid()
      requires prev == StateOf(s0, g, state.initial)
      requires out == Notified(state.stateExpr, prev, signals[..i], g, stateName, exclude)
      requires i == 0 ==> state.states == s0
      requires i > 0 ==> state.states == s0[g := Settle(state.stateExpr, prev, signals[..i])]
      modifies state`groups, state`states
      ensures state.Valid()
      ensures out' == Notified(state.stateExpr, prev, signals[..i + 1], g, stateName, exclude)
      ensures state.states == s0[g := Settle(state.stateExpr, prev, signals[..i + 1])]
    {
      NotifiedSnoc(state.stateExpr, prev, signals, i, g, stateName, exclude);
      assert StateOf(state.states, g, state.initial) == Settle(state.stateExpr, prev, signals[..i]);
      var signal := signals[i];
      var c := state.ProcessState(signal, g);
      out' := out;
      if c.Some? {
        if exclude {
          signal := map[];
        }
        signal := signal["prev_" + stateName := c.value.prev];
        signal := signal[stateName := c.value.next];
        signal := signal["group" := g];
        out' := out' + [signal];
      }
    }
  }

  /** The signals notified and the state reached, one signal further. */
  lemma NotifiedSnoc(f: Expr, prev: Value, signals: seq<Signal>, i: int, g: Value, stateName: string, exclude: bool)
    requires 0 <= i < |signals|
    ensures var c := ChangeOf(Settle(f, prev, signals[..i]), f(signals[i]));
      && Notified(f, prev, signals[..i + 1], g, stateName, exclude) ==
           Notified(f, prev, signals[..i], g, stateName, exclude)
             + (if c.Some? then [ChangeSignal(signals[i], c.value, g, stateName, exclude)] else [])
      && Settle(f, prev, signals[..i + 1]) == Step(Settle(f, prev, signals[..i]), f(signals[i]))
  {
    assert signals[..i + 1][..i] == signals[..i];
  }
}
