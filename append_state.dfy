/** `AppendState`: setter signals set each group's state; every other
    signal is passed on with the group's current state added under
    `state_name`. */
module AppendStateBlock {
  import opened Signals
  import opened StateBaseBlock

  class AppendState {
    const state: StateBase
    /** `state_name`. */
    const stateName: string

    constructor (state: StateBase, stateName: string)
      ensures this.state == state && this.stateName == stateName
    {
      this.state := state;
      this.stateName := stateName;
    }

    /** `_process_group`: the setter input sets the state and returns no
        signals; any other input returns its signals with the state. */
    method ProcessGroup(signals: seq<Signal>, g: Value, inputId: string) returns (out: seq<Signal>)
      requires state.Valid()
      modifies state`groups, state`states
      ensures state.Valid()
      ensures inputId == "setter" ==> out == []
      ensures inputId == "setter" && signals != [] ==>
                state.states == old(state.states)[g := Settle(state.stateExpr, StateOf(old(state.states), g, state.initial), signals)]
      ensures inputId != "setter" ==> |out| == |signals|
      ensures inputId != "setter" ==> forall i :: 0 <= i < |out| ==>
                out[i] == signals[i][stateName := StateOf(old(state.states), g, state.initial)]
      ensures inputId != "setter" && signals != [] ==>
                state.states == old(state.states)[g := StateOf(old(state.states), g, state.initial)]
      ensures signals == [] ==> state.states == old(state.states)
    {
      if inputId == "setter" {
        state.ProcessSetterGroup(signals, g);
        out := [];
      } else {
        out := ProcessGetterGroup(signals, g);
      }
    }

    /** `_process_getter_group`: every signal gets the group's current
        state; the state is only initialised. */
    method ProcessGetterGroup(signals: seq<Signal>, g: Value) returns (out: seq<Signal>)
      requires state.Valid()
      modifies state`groups, state`states
      ensures state.Valid()
      ensures |out| == |signals|
      ensures forall i :: 0 <= i < |out| ==>
                out[i] == signals[i][stateName := StateOf(old(state.states), g, state.initial)]
      ensures signals != [] ==> state.states == old(state.states)[g := StateOf(old(state.states), g, state.initial)]
      ensures signals == [] ==> state.states == old(state.states)
    {
      ghost var s := StateOf(state.states, g, state.initial);
      ghost var s0 := state.states;
      out := [];
      var i := 0;
      while i < |signals|
        invariant 0 <= i <= |signals|
        invariant state.Valid()
        invariant i == 0 ==> state.states == s0
        invariant i > 0 ==> state.states == s0[g := s]
        invariant |out| == i
        invariant forall j :: 0 <= j < i ==> out[j] == signals[j][stateName := s]
      {
        var existing := state.GetState(g);
        var signal := signals[i][stateName := existing];
        out := out + [signal];
        i := i + 1;
      }
    }
  }
}
