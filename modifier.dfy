/** `Modifier`: sets the configured fields on each signal, or (with
    `exclude`) builds new signals holding only those fields. */
module ModifierBlock {
  import opened Signals

  /** One configured field: its value and its attribute name, both
      evaluated per signal. */
  datatype Field = Field(formula: Expr, title: Expr)

  /** The fields applied in order onto `tmp`. Both expressions are
      evaluated against the original signal when excluding, and against
      the signal being modified (which is the original, changed in place)
      otherwise. A failing expression, or a title that is not a string,
      raises. */
  function Fold(fields: seq<Field>, tmp: Signal, orig: Signal, exclude: bool): Eval<Signal>
    decreases |fields|
  {
    if fields == [] then Val(tmp)
    else
      var ctx := if exclude then orig else tmp;
      var value := fields[0].formula(ctx);
      var title := fields[0].title(ctx);
      if value.Fails? || title.Fails? || !title.value.VStr? then Fails
      else Fold(fields[1..], tmp[title.value.s := value.value], orig, exclude)
  }

  /** The output for one signal. */
  function Modified(fields: seq<Field>, exclude: bool, s: Signal): Eval<Signal>
  {
    Fold(fields, if exclude then map[] else s, s, exclude)
  }

  /** Whether field `j` names attribute `k` when evaluated on `s`. */
  predicate Names(f: Field, s: Signal, k: string)
  {
    f.title(s) == Val(VStr(k))
  }

  /** Excluding, an attribute of the result is the title of some field,
      or was in `tmp`; it holds the value of the last field with that
      title, or its value in `tmp` when no field has it. */
  lemma {:induction false} FoldExclude(fields: seq<Field>, tmp: Signal, orig: Signal, k: string)
    requires Fold(fields, tmp, orig, true).Val?
    ensures forall j :: 0 <= j < |fields| ==> fields[j].formula(orig).Val?
    ensures var r := Fold(fields, tmp, orig, true).value;
      && (k in r <==> k in tmp || exists j :: 0 <= j < |fields| && Names(fields[j], orig, k))
      && ((forall j :: 0 <= j < |fields| ==> !Names(fields[j], orig, k)) ==>
            (k in tmp ==> r[k] == tmp[k]))
      && (forall j :: 0 <= j < |fields| && Names(fields[j], orig, k)
                      && (forall j' :: j < j' < |fields| ==> !Names(fields[j'], orig, k))
                      ==> r[k] == fields[j].formula(orig).value)
    decreases |fields|
  {
    if fields != [] {
      var t := fields[0].title(orig).value.s;
      var tmp' := tmp[t := fields[0].formula(orig).value];
      FoldExclude(fields[1..], tmp', orig, k);
      assert forall j :: 0 < j < |fields| ==> fields[1..][j - 1] == fields[j];
      assert Names(fields[0], orig, t);
    }
  }

  /** With `exclude`, the output holds exactly the titles of the fields,
      each with the value of the last field that names it. */
  lemma ExcludeOutput(fields: seq<Field>, s: Signal, k: string)
    requires Modified(fields, true, s).Val?
    ensures forall j :: 0 <= j < |fields| ==> fields[j].formula(s).Val?
    ensures var r := Modified(fields, true, s).value;
      && (k in r <==> exists j :: 0 <= j < |fields| && Names(fields[j], s, k))
      && (forall j :: 0 <= j < |fields| && Names(fields[j], s, k)
                      && (forall j' :: j < j' < |fields| ==> !Names(fields[j'], s, k))
                      ==> r[k] == fields[j].formula(s).value)
  {
    FoldExclude(fields, map[], s, k);
  }

  /** Without `exclude`, every attribute already there stays. */
  lemma {:induction false} IncludeKeeps(fields: seq<Field>, tmp: Signal, orig: Signal)
    requires Fold(fields, tmp, orig, false).Val?
    ensures tmp.Keys <= Fold(fields, tmp, orig, false).value.Keys
    decreases |fields|
  {
    if fields != [] {
      var t := fields[0].title(tmp).value.s;
      IncludeKeeps(fields[1..], tmp[t := fields[0].formula(tmp).value], orig);
    }
  }

  /** Without `exclude`, the signal as the first `j` fields leave it: the
      one field `j` is evaluated on. */
  function Stage(fields: seq<Field>, tmp: Signal, orig: Signal, j: nat): Eval<Signal>
    requires j <= |fields|
  {
    Fold(fields[..j], tmp, orig, false)
  }

  /** Field `j`, evaluated on its stage, names attribute `k`. */
  predicate NamesAt(fields: seq<Field>, tmp: Signal, orig: Signal, j: nat, k: string)
    requires j < |fields|
  {
    Stage(fields, tmp, orig, j).Val? && Names(fields[j], Stage(fields, tmp, orig, j).value, k)
  }

  /** The value of field `j`, evaluated on its stage. */
  function ValueAt(fields: seq<Field>, tmp: Signal, orig: Signal, j: nat): Eval<Value>
    requires j < |fields|
  {
    if Stage(fields, tmp, orig, j).Val? then fields[j].formula(Stage(fields, tmp, orig, j).value) else Fails
  }

  /** The stages after the first field are the stages of the other fields
      from the signal the first field leaves. */
  lemma StageTail(fields: seq<Field>, tmp: Signal, orig: Signal, j: nat)
    requires 1 <= j <= |fields|
    requires Fold(fields[..1], tmp, orig, false).Val?
    ensures Stage(fields, tmp, orig, j) ==
            Stage(fields[1..], Fold(fields[..1], tmp, orig, false).value, orig, j - 1)
  {
    assert fields[..j][1..] == fields[1..][..j - 1];
    assert fields[..1][1..] == [];
    assert fields[..j][0] == fields[..1][0];
  }

  /** Naming and values after the first field, read on the other fields. */
  lemma StepTail(fields: seq<Field>, tmp: Signal, orig: Signal, j: nat, k: string)
    requires 1 <= j < |fields|
    requires Fold(fields[..1], tmp, orig, false).Val?
    ensures var tmp' := Fold(fields[..1], tmp, orig, false).value;
      && (NamesAt(fields, tmp, orig, j, k) <==> NamesAt(fields[1..], tmp', orig, j - 1, k))
      && ValueAt(fields, tmp, orig, j) == ValueAt(fields[1..], tmp', orig, j - 1)
  {
    StageTail(fields, tmp, orig, j);
    assert fields[1..][j - 1] == fields[j];
  }

  /** The first field is evaluated on `tmp` and leaves it with its title
      set to its value. */
  lemma StageFirst(fields: seq<Field>, tmp: Signal, orig: Signal)
    requires fields != [] && Fold(fields, tmp, orig, false).Val?
    ensures Stage(fields, tmp, orig, 0) == Val(tmp)
    ensures ValueAt(fields, tmp, orig, 0).Val? && fields[0].title(tmp).Val? && fields[0].title(tmp).value.VStr?
    ensures Fold(fields[..1], tmp, orig, false) ==
            Val(tmp[fields[0].title(tmp).value.s := ValueAt(fields, tmp, orig, 0).value])
    ensures Fold(fields[1..], Fold(fields[..1], tmp, orig, false).value, orig, false) == Fold(fields, tmp, orig, false)
  {
    assert fields[..0] == [];
    assert fields[..1][1..] == [];
  }

  /** Without `exclude`, each field is evaluated on a stage the fold
      reached, and gives a value. */
  lemma {:induction false} FoldStages(fields: seq<Field>, tmp: Signal, orig: Signal)
    requires Fold(fields, tmp, orig, false).Val?
    ensures forall j :: 0 <= j < |fields| ==> ValueAt(fields, tmp, orig, j).Val?
    decreases |fields|
  {
    if fields != [] {
      StageFirst(fields, tmp, orig);
      var tmp' := Fold(fields[..1], tmp, orig, false).value;
      FoldStages(fields[1..], tmp', orig);
      forall j | 1 <= j < |fields|
        ensures ValueAt(fields, tmp, orig, j).Val?
      {
        StepTail(fields, tmp, orig, j, "");
      }
    }
  }

  /** Without `exclude`, an attribute of the result was in `tmp` or is
      named by a field on its stage. */
  lemma {:induction false} FoldIncludeKeys(fields: seq<Field>, tmp: Signal, orig: Signal, k: string)
    requires Fold(fields, tmp, orig, false).Val?
    ensures k in Fold(fields, tmp, orig, false).value <==>
              k in tmp || exists j :: 0 <= j < |fields| && NamesAt(fields, tmp, orig, j, k)
    decreases |fields|
  {
    if fields != [] {
      StageFirst(fields, tmp, orig);
      var tmp' := Fold(fields[..1], tmp, orig, false).value;
      FoldIncludeKeys(fields[1..], tmp', orig, k);
      assert NamesAt(fields, tmp, orig, 0, k) <==> fields[0].title(tmp).value.s == k;
      if exists j :: 1 <= j < |fields| && NamesAt(fields, tmp, orig, j, k) {
        var j :| 1 <= j < |fields| && NamesAt(fields, tmp, orig, j, k);
        StepTail(fields, tmp, orig, j, k);
      }
      if exists j :: 0 <= j < |fields[1..]| && NamesAt(fields[1..], tmp', orig, j, k) {
        var j :| 0 <= j < |fields[1..]| && NamesAt(fields[1..], tmp', orig, j, k);
        StepTail(fields, tmp, orig, j + 1, k);
      }
    }
  }

  /** Without `exclude`, an attribute no field names keeps its value. */
  lemma {:induction false} FoldIncludeUnnamed(fields: seq<Field>, tmp: Signal, orig: Signal, k: string)
    requires Fold(fields, tmp, orig, false).Val? && k in tmp
    requires forall j :: 0 <= j < |fields| ==> !NamesAt(fields, tmp, orig, j, k)
    ensures k in Fold(fields, tmp, orig, false).value && Fold(fields, tmp, orig, false).value[k] == tmp[k]
    decreases |fields|
  {
    if fields != [] {
      StageFirst(fields, tmp, orig);
      var tmp' := Fold(fields[..1], tmp, orig, false).value;
      assert !NamesAt(fields, tmp, orig, 0, k);
      forall j | 0 <= j < |fields[1..]|
        ensures !NamesAt(fields[1..], tmp', orig, j, k)
      {
        StepTail(fields, tmp, orig, j + 1, k);
      }
      FoldIncludeUnnamed(fields[1..], tmp', orig, k);
    }
  }

  /** Without `exclude`, a named attribute holds the value of the last
      field naming it. */
  lemma {:induction false} FoldIncludeLast(fields: seq<Field>, tmp: Signal, orig: Signal, k: string, j: nat)
    requires Fold(fields, tmp, orig, false).Val?
    requires j < |fields| && NamesAt(fields, tmp, orig, j, k)
    requires forall j' :: j < j' < |fields| ==> !NamesAt(fields, tmp, orig, j', k)
    ensures ValueAt(fields, tmp, orig, j).Val?
    ensures k in Fold(fields, tmp, orig, false).value
    ensures Fold(fields, tmp, orig, false).value[k] == ValueAt(fields, tmp, orig, j).value
    decreases |fields|
  {
    StageFirst(fields, tmp, orig);
    var tmp' := Fold(fields[..1], tmp, orig, false).value;
    forall j' | 0 <= j' < |fields[1..]| && j < j' + 1
      ensures !NamesAt(fields[1..], tmp', orig, j', k)
    {
      StepTail(fields, tmp, orig, j' + 1, k);
    }
    if j == 0 {
      assert fields[0].title(tmp).value.s == k;
      FoldIncludeUnnamed(fields[1..], tmp', orig, k);
    } else {
      StepTail(fields, tmp, orig, j, k);
      FoldIncludeLast(fields[1..], tmp', orig, k, j - 1);
    }
  }

  /** Without `exclude`, the fields are set on the signal itself: an
      attribute of the output is one of the signal's or the title of some
      field, evaluated on the signal as the earlier fields left it; an
      attribute no field names keeps its value; a named one holds the
      value of the last field naming it, evaluated on its stage; with no
      fields the signal passes through unchanged. */
  lemma IncludeOutput(fields: seq<Field>, s: Signal, k: string)
    requires Modified(fields, false, s).Val?
    ensures forall j :: 0 <= j < |fields| ==> ValueAt(fields, s, s, j).Val?
    ensures var r := Modified(fields, false, s).value;
      && (k in r <==> k in s || exists j :: 0 <= j < |fields| && NamesAt(fields, s, s, j, k))
      && ((forall j :: 0 <= j < |fields| ==> !NamesAt(fields, s, s, j, k)) ==> (k in s ==> r[k] == s[k]))
      && (forall j :: 0 <= j < |fields| && NamesAt(fields, s, s, j, k)
                      && (forall j' :: j < j' < |fields| ==> !NamesAt(fields, s, s, j', k))
                      ==> r[k] == ValueAt(fields, s, s, j).value)
    ensures fields == [] ==> Modified(fields, false, s) == Val(s)
  {
    FoldStages(fields, s, s);
    FoldIncludeKeys(fields, s, s, k);
    if (forall j :: 0 <= j < |fields| ==> !NamesAt(fields, s, s, j, k)) && k in s {
      FoldIncludeUnnamed(fields, s, s, k);
    }
    forall j | 0 <= j < |fields| && NamesAt(fields, s, s, j, k)
               && (forall j' :: j < j' < |fields| ==> !NamesAt(fields, s, s, j', k))
      ensures Modified(fields, false, s).value[k] == ValueAt(fields, s, s, j).value
    {
      FoldIncludeLast(fields, s, s, k, j);
    }
  }

  class Modifier {
    const fields: seq<Field>
    const exclude: bool

    constructor (fields: seq<Field>, exclude: bool)
      ensures this.fields == fields && this.exclude == exclude
    {
      this.fields := fields;
      this.exclude := exclude;
    }

    /** The inner loop for one signal. */
    method ModifyOne(signal: Signal) returns (r: Eval<Signal>)
      ensures r == Modified(fields, exclude, signal)
    {
      var tmp := if exclude then map[] else signal;
      var k := 0;
      while k < |fields|
        invariant 0 <= k <= |fields|
        invariant Modified(fields, exclude, signal) == Fold(fields[k..], tmp, signal, exclude)
      {
        var ctx := if exclude then signal else tmp;
        var value := fields[k].formula(ctx);
        var title := fields[k].title(ctx);
        assert fields[k..][1..] == fields[k + 1..];
        if value.Fails? || title.Fails? || !title.value.VStr? {
          return Fails;
        }
        tmp := tmp[title.value.s := value.value];
        k := k + 1;
      }
      r := Val(tmp);
    }

    /** `process_signals`: every signal modified, all notified in one
        list; a failure on any signal raises and nothing is notified. */
    method ProcessSignals(signals: seq<Signal>) returns (sent: seq<Notification>)
      ensures (exists i :: 0 <= i < |signals| && Modified(fields, exclude, signals[i]).Fails?) <==> sent == []
      ensures sent != [] ==>
        && |sent| == 1 && sent[0].outputId == None && |sent[0].signals| == |signals|
        && forall i :: 0 <= i < |signals| ==> sent[0].signals[i] == Modified(fields, exclude, signals[i]).value
    {
      var out := [];
      var i := 0;
      while i < |signals|
        invariant 0 <= i <= |signals| && |out| == i
        invariant forall j :: 0 <= j < i ==> Modified(fields, exclude, signals[j]).Val?
        invariant forall j :: 0 <= j < i ==> out[j] == Modified(fields, exclude, signals[j]).value
      {
        var r := ModifyOne(signals[i]);
        if r.Fails? {
          return [];
        }
        out := out + [r.value];
        i := i + 1;
      }
      sent := [Notify(out, None)];
    }
  }
}
