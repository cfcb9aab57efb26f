/** `Replicator`: one copy of each signal per element of its evaluated
    list, with the element under the attribute `title`. */
module ReplicatorBlock {
  import opened Signals

  /** What the inner loop iterates: the elements of a list, the one-letter
      strings of a string; a falsy value or a failed evaluation stands for
      `[None]`; other truthy values are not iterable and raise. */
  function Values(e: Eval<Value>): Eval<seq<Value>>
  {
    if e.Fails? || !Truthy(e.value) then Val([VNone])
    else match e.value
      case VList(items) => Val(items)
      case VStr(s) => Val(seq(|s|, i requires 0 <= i < |s| => VStr([s[i]])))
      case _ => Fails
  }

  /** The copies of one signal, one per value, in order. */
  function Copies(s: Signal, title: string, values: seq<Value>): (r: seq<Signal>)
    ensures |r| == |values|
    ensures forall i :: 0 <= i < |values| ==> r[i] == ToDict(s)[title := values[i]]
  {
    seq(|values|, i requires 0 <= i < |values| => ToDict(s)[title := values[i]])
  }

  /** Every signal yields at least one copy: a falsy or failing list gives
      exactly one, holding None. */
  lemma AtLeastOne(s: Signal, title: string, e: Eval<Value>)
    ensures Values(e).Val? ==> |Values(e).value| >= 1
    ensures e.Fails? || !Truthy(e.value) ==> Copies(s, title, Values(e).value) == [ToDict(s)[title := VNone]]
  {
    if e.Val? && Truthy(e.value) {
      match e.value
      case VList(items) => assert items != [];
      case VStr(t) => assert t != "";
      case _ =>
    }
  }

  class Replicator {
    /** `title`. */
    const title: string
    /** `list`, evaluated per signal. */
    const list: Expr

    constructor (title: string, list: Expr)
      ensures this.title == title && this.list == list
    {
      this.title := title;
      this.list := list;
    }

    /** The copies of all signals, input by input. */
    function AllCopies(signals: seq<Signal>): seq<Signal>
      requires forall i :: 0 <= i < |signals| ==> Values(list(signals[i])).Val?
    {
      if signals == [] then []
      else AllCopies(signals[..|signals| - 1])
           + Copies(signals[|signals| - 1], title, Values(list(signals[|signals| - 1])).value)
    }

    /** The outputs of an input add up to the number of its values. */
    lemma {:induction false} AllCopiesCount(signals: seq<Signal>)
      requires forall i :: 0 <= i < |signals| ==> Values(list(signals[i])).Val?
      ensures |AllCopies(signals)| >= |signals|
      decreases |signals|
    {
      if signals != [] {
        AllCopiesCount(signals[..|signals| - 1]);
        var v := list(signals[|signals| - 1]);
        AtLeastOne(signals[|signals| - 1], title, v);
      }
    }

    /** `process_signals`: the copies in input order, then value order,
        notified once when there are any; a value that is not iterable
        raises and nothing is notified. */
    method ProcessSignals(signals: seq<Signal>) returns (ok: bool, sent: seq<Notification>)
      ensures ok <==> forall i :: 0 <= i < |signals| ==> Values(list(signals[i])).Val?
      ensures !ok ==> sent == []
      ensures ok ==> sent == if AllCopies(signals) == [] then [] else [Notify(AllCopies(signals), None)]
    {
      var out := [];
      var i := 0;
      while i < |signals|
        invariant 0 <= i <= |signals|
        invariant forall j :: 0 <= j < i ==> Values(list(signals[j])).Val?
        invariant out == AllCopies(signals[..i])
      {
        assert signals[..i + 1][..i] == signals[..i];
        var values := Values(list(signals[i]));
        if values.Fails? {
          return false, [];
        }
        var k := 0;
        while k < |values.value|
          invariant 0 <= k <= |values.value|
          invariant out == AllCopies(signals[..i]) + Copies(signals[i], title, values.value[..k])
        {
          assert values.value[..k + 1] == values.value[..k] + [values.value[k]];
          out := out + [ToDict(signals[i])[title := values.value[k]]];
          k := k + 1;
        }
        assert values.value[..k] == values.value;
        i := i + 1;
      }
      assert signals[..i] == signals;
      ok := true;
      sent := if out == [] then [] else [Notify(out, None)];
    }
  }
}
