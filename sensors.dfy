/** The lm-sensors reader of the host metrics: it splits the output of
    `sensors -u` into lines, tracks which adapter each line belongs to and
    records every temperature line under `sensors_<adapter>_<name>`. */
module SensorsReader {
  import opened Signals

  /** The characters Python's `splitlines` breaks at. */
  predicate IsBreak(c: char)
  {
    c in {'\n', '\r', '\U{000B}', '\U{000C}', '\U{001C}', '\U{001D}', '\U{001E}', '\U{0085}', '\U{2028}', '\U{2029}'}
  }

  /** The characters Python's `strip` removes and `\s` matches. */
  predicate IsSpace(c: char)
  {
    c in {' ', '\t', '\n', '\r', '\U{000B}', '\U{000C}', '\U{001C}', '\U{001D}', '\U{001E}', '\U{001F}',
          '\U{0085}', '\U{00A0}', '\U{1680}', '\U{2000}', '\U{2001}', '\U{2002}', '\U{2003}', '\U{2004}',
          '\U{2005}', '\U{2006}', '\U{2007}', '\U{2008}', '\U{2009}', '\U{200A}', '\U{2028}', '\U{2029}',
          '\U{202F}', '\U{205F}', '\U{3000}'}
  }

  /** The index of the first line break, or the length when there is none. */
  function FirstBreak(s: string): (k: nat)
    ensures k <= |s|
    ensures forall i :: 0 <= i < k ==> !IsBreak(s[i])
    ensures k < |s| ==> IsBreak(s[k])
  {
    if s == [] || IsBreak(s[0]) then 0
    else
      var k := FirstBreak(s[1..]);
      assert forall i :: 1 <= i < k + 1 ==> s[i] == s[1..][i - 1];
      k + 1
  }

  /** `splitlines`: the text between line breaks, `\r\n` counting as one
      break, and no empty line after a final break. */
  function SplitLines(s: string): (lines: seq<string>)
    ensures forall i, j :: 0 <= i < |lines| && 0 <= j < |lines[i]| ==> !IsBreak(lines[i][j])
    ensures s == [] <==> lines == []
    ensures (forall j :: 0 <= j < |s| ==> !IsBreak(s[j])) && s != [] ==> lines == [s]
    decreases |s|
  {
    if s == [] then []
    else
      var k := FirstBreak(s);
      if k == |s| then [s]
      else
        var n := if s[k] == '\r' && k + 1 < |s| && s[k + 1] == '\n' then 2 else 1;
        var rest := SplitLines(s[k + n..]);
        assert forall i :: 0 < i < |rest| + 1 ==> ([s[..k]] + rest)[i] == rest[i - 1];
        [s[..k]] + rest
  }

  /** `lstrip`. */
  function LStrip(s: string): (r: string)
    ensures |r| <= |s| && r == s[|s| - |r|..]
    ensures r == [] || !IsSpace(r[0])
    ensures forall i :: 0 <= i < |s| - |r| ==> IsSpace(s[i])
  {
    if s != [] && IsSpace(s[0]) then
      var r := LStrip(s[1..]);
      assert forall i :: 1 <= i < |s| - |r| ==> s[i] == s[1..][i - 1];
      r
    else s
  }

  /** `rstrip`. */
  function RStrip(s: string): (r: string)
    ensures |r| <= |s| && r == s[..|r|]
    ensures r == [] || !IsSpace(r[|r| - 1])
    ensures forall i :: |r| <= i < |s| ==> IsSpace(s[i])
  {
    if s != [] && IsSpace(s[|s| - 1]) then
      var r := RStrip(s[..|s| - 1]);
      assert forall i :: |r| <= i < |s| - 1 ==> s[i] == s[..|s| - 1][i];
      r
    else s
  }

  function Strip(s: string): string
  {
    LStrip(RStrip(s))
  }

  /** A colon followed by whitespace at `j`. */
  predicate ColonSpaceAt(t: string, j: int)
  {
    0 <= j && j + 1 < |t| && t[j] == ':' && IsSpace(t[j + 1])
  }

  /** The first colon followed by whitespace, or the length when there is
      none. */
  function FirstColonSpace(t: string): (k: nat)
    ensures k <= |t|
    ensures k < |t| ==> ColonSpaceAt(t, k)
    ensures forall j :: 0 <= j < k ==> !ColonSpaceAt(t, j)
    ensures k == |t| ==> forall j :: !ColonSpaceAt(t, j)
  {
    if |t| < 2 then |t|
    else if ColonSpaceAt(t, 0) then 0
    else
      var k := FirstColonSpace(t[1..]);
      assert forall j :: 1 <= j < |t| ==> (ColonSpaceAt(t, j) <==> ColonSpaceAt(t[1..], j - 1));
      k + 1
  }

  /** `_get_temp`: for a stripped line that starts with `temp` and matches
      `^(.*?):\s+(.*?)$`, the text before the first colon followed by
      whitespace and the text after that whitespace. */
  function TempOf(line: string): Option<(string, string)>
  {
    TempIn(Strip(line))
  }

  /** The match on the stripped line. */
  function TempIn(t: string): Option<(string, string)>
  {
    if |t| >= 4 && t[..4] == "temp" then
      var i := FirstColonSpace(t);
      if i < |t| then Some((t[..i], LStrip(t[i + 1..]))) else None
    else None
  }

  /** A stripped line gives a temperature exactly when it starts with
      `temp` and holds a colon followed by whitespace. */
  lemma TempFound(t: string)
    ensures TempIn(t).Some? <==> |t| >= 4 && t[..4] == "temp" && exists j :: ColonSpaceAt(t, j)
  {
    if |t| >= 4 && t[..4] == "temp" && FirstColonSpace(t) < |t| {
      assert ColonSpaceAt(t, FirstColonSpace(t));
    }
  }

  /** The name is what precedes the first colon followed by whitespace,
      and so starts with `temp`; the value is what follows the whitespace
      after that colon. */
  lemma TempParts(t: string)
    requires TempIn(t).Some?
    ensures var (name, value) := TempIn(t).value;
      var i := |name|;
      && i >= 4 && name[..4] == "temp"
      && ColonSpaceAt(t, i) && t[..i] == name
      && (forall j :: 0 <= j < i ==> !ColonSpaceAt(t, j))
      && value == t[|t| - |value|..] && |value| < |t| - i - 1
      && (forall j :: i + 1 <= j < |t| - |value| ==> IsSpace(t[j]))
      && (value == [] || !IsSpace(value[0]))
  {
    var i := FirstColonSpace(t);
    TempHasNoColon(t);
    ValueAfter(t, i);
    assert t[..i][..4] == t[..4];
  }

  /** No colon in the leading `temp`. */
  lemma TempHasNoColon(t: string)
    requires |t| >= 4 && t[..4] == "temp"
    ensures forall j :: 0 <= j < 4 ==> !ColonSpaceAt(t, j)
  {
    assert t[..4][0] == t[0] && t[..4][1] == t[1] && t[..4][2] == t[2] && t[..4][3] == t[3];
  }

  /** What follows the whitespace after the colon at `i`: a suffix of `t`
      preceded by whitespace only, and not starting with whitespace. */
  lemma ValueAfter(t: string, i: int)
    requires ColonSpaceAt(t, i)
    ensures var value := LStrip(t[i + 1..]);
      && value == t[|t| - |value|..] && |value| < |t| - i - 1
      && (forall j :: i + 1 <= j < |t| - |value| ==> IsSpace(t[j]))
      && (value == [] || !IsSpace(value[0]))
  {
    var rest := t[i + 1..];
    var value := LStrip(rest);
    assert forall j :: i + 1 <= j < |t| - |value| ==> t[j] == rest[j - i - 1];
  }

  /** Where the adapter tracking stands: the current adapter and whether
      the next line starts a new one. */
  datatype Scan = Scan(adapter: Option<string>, newAdapter: bool)

  /** `_get_adapter` on one line. */
  function AdapterStep(st: Scan, line: string): Scan
  {
    if st.newAdapter then Scan(Some(line), false)
    else if line == "" then Scan(st.adapter, true)
    else st
  }

  /** The tracking after each line in turn. */
  function ScanAll(st: Scan, lines: seq<string>): Scan
  {
    if lines == [] then st else AdapterStep(ScanAll(st, lines[..|lines| - 1]), lines[|lines| - 1])
  }

  /** The lines that name an adapter: the first one, and each one after a
      blank line that does not itself name an adapter. */
  predicate AdapterLine(lines: seq<string>, i: nat)
    requires i < |lines|
  {
    i == 0 || (lines[i - 1] == "" && !AdapterLine(lines, i - 1))
  }

  /** The last adapter line up to `k`. */
  function LastAdapterLine(lines: seq<string>, k: nat): (j: nat)
    requires k < |lines|
    ensures j <= k && AdapterLine(lines, j)
    ensures forall i :: j < i <= k ==> !AdapterLine(lines, i)
  {
    if AdapterLine(lines, k) then k else LastAdapterLine(lines, k - 1)
  }

  /** From a fresh reader, each line belongs to the adapter named by the
      last adapter line up to it, and a new adapter is pending exactly
      after a blank line that is not itself an adapter line. */
  lemma {:induction false} AdapterScan(lines: seq<string>, k: nat)
    requires k < |lines|
    ensures var st := ScanAll(Scan(None, true), lines[..k + 1]);
      && st.adapter == Some(lines[LastAdapterLine(lines, k)])
      && st.newAdapter == (lines[k] == "" && !AdapterLine(lines, k))
  {
    assert lines[..k + 1][..k] == lines[..k];
    if k > 0 {
      AdapterScan(lines, k - 1);
    }
  }

  /** Once an adapter is known or pending, it stays so. */
  ghost predicate Tracking(st: Scan)
  {
    st.newAdapter || st.adapter.Some?
  }

  lemma AdapterStepKeeps(st: Scan, line: string)
    requires Tracking(st)
    ensures Tracking(AdapterStep(st, line)) && AdapterStep(st, line).adapter.Some?
  {
  }

  /** The adapter as `format` writes it. */
  function AdapterText(a: Option<string>): string
  {
    if a.Some? then a.value else "None"
  }

  /** The key a temperature is stored under. */
  function Key(adapter: string, name: string): (k: string)
    ensures k == "sensors_" + adapter + "_" + name
    ensures |k| >= 8 && k[..8] == "sensors_"
  {
    "sensors_" + adapter + "_" + name
  }

  /** How `read` ends: with the filled dictionary, or with a value that
      `float` rejects, leaving the dictionary filled up to that line. */
  datatype ReadOutcome<V> = ReadOk(response: map<string, V>) | ReadValueError(partial: map<string, V>)

  /** `read` on the remaining lines. */
  function ReadLines<V>(st: Scan, lines: seq<string>, response: map<string, V>, toFloat: string -> Option<V>)
    : (Scan, ReadOutcome<V>)
    decreases |lines|
  {
    if lines == [] then (st, ReadOk(response))
    else
      var st1 := AdapterStep(st, lines[0]);
      var temp := TempOf(lines[0]);
      if temp.None? then ReadLines(st1, lines[1..], response, toFloat)
      else
        var v := toFloat(temp.value.1);
        if v.None? then (st1, ReadValueError(response))
        else ReadLines(st1, lines[1..], response[Key(AdapterText(st1.adapter), temp.value.0) := v.value], toFloat)
  }

  function OutcomeMap<V>(r: ReadOutcome<V>): map<string, V>
  {
    if r.ReadOk? then r.response else r.partial
  }

  /** Reading keeps every key already in the dictionary, adds only keys
      starting with `sensors_`, and changes no value under any other key. */
  lemma {:induction false} ReadKeeps<V>(st: Scan, lines: seq<string>, response: map<string, V>, toFloat: string -> Option<V>)
    ensures var m := OutcomeMap(ReadLines(st, lines, response, toFloat).1);
      && response.Keys <= m.Keys
      && (forall k :: k in m && k !in response ==> |k| >= 8 && k[..8] == "sensors_")
      && (forall k :: k in response && !(|k| >= 8 && k[..8] == "sensors_") ==> m[k] == response[k])
    decreases |lines|
  {
    if lines != [] {
      var st1 := AdapterStep(st, lines[0]);
      var temp := TempOf(lines[0]);
      if temp.None? {
        ReadKeeps(st1, lines[1..], response, toFloat);
      } else if toFloat(temp.value.1).Some? {
        var key := Key(AdapterText(st1.adapter), temp.value.0);
        ReadKeeps(st1, lines[1..], response[key := toFloat(temp.value.1).value], toFloat);
      }
    }
  }

  /** A line without a temperature adds nothing; a temperature line sets
      its key, replacing an earlier value under the same key. */
  lemma ReadFirstLine<V>(st: Scan, line: string, rest: seq<string>, response: map<string, V>, toFloat: string -> Option<V>)
    ensures var st1 := AdapterStep(st, line);
      && (TempOf(line).None? ==>
            ReadLines(st, [line] + rest, response, toFloat) == ReadLines(st1, rest, response, toFloat))
      && (TempOf(line).Some? && toFloat(TempOf(line).value.1).Some? ==>
            var key := "sensors_" + AdapterText(st1.adapter) + "_" + TempOf(line).value.0;
            ReadLines(st, [line] + rest, response, toFloat) ==
            ReadLines(st1, rest, response[key := toFloat(TempOf(line).value.1).value], toFloat))
      && (TempOf(line).Some? && toFloat(TempOf(line).value.1).None? ==>
            ReadLines(st, [line] + rest, response, toFloat) == (st1, ReadValueError(response)))
  {
    assert ([line] + rest)[0] == line && ([line] + rest)[1..] == rest;
  }

  /** `ReadFirstLine` for the line at index `i` of `lines`. */
  lemma ReadLineAt<V>(st: Scan, lines: seq<string>, i: int, response: map<string, V>, toFloat: string -> Option<V>)
    requires 0 <= i < |lines|
    ensures var line, st1 := lines[i], AdapterStep(st, lines[i]);
      && (TempOf(line).None? ==>
            ReadLines(st, lines[i..], response, toFloat) == ReadLines(st1, lines[i + 1..], response, toFloat))
      && (TempOf(line).Some? && toFloat(TempOf(line).value.1).Some? ==>
            var key := "sensors_" + AdapterText(st1.adapter) + "_" + TempOf(line).value.0;
            ReadLines(st, lines[i..], response, toFloat) ==
            ReadLines(st1, lines[i + 1..], response[key := toFloat(TempOf(line).value.1).value], toFloat))
      && (TempOf(line).Some? && toFloat(TempOf(line).value.1).None? ==>
            ReadLines(st, lines[i..], response, toFloat) == (st1, ReadValueError(response)))
  {
    assert lines[i..] == [lines[i]] + lines[i + 1..];
    ReadFirstLine(st, lines[i], lines[i + 1..], response, toFloat);
  }

  class Sensors {
    /** `_adapter`. */
    var adapter: Option<string>
    /** `_new_adapter`. */
    var newAdapter: bool

    ghost predicate Valid()
      reads this
    {
      Tracking(Scan(adapter, newAdapter))
    }

    constructor ()
      ensures Valid() && adapter == None && newAdapter
    {
      adapter := None;
      newAdapter := true;
    }

    /** `_get_adapter`. */
    method GetAdapter(line: string) returns (a: string)
      requires Valid()
      modifies this
      ensures Valid()
      ensures Scan(adapter, newAdapter) == AdapterStep(old(Scan(adapter, newAdapter)), line)
      ensures adapter == Some(a)
    {
      if newAdapter {
        adapter := Some(line);
        newAdapter := false;
      } else if line == "" {
        newAdapter := true;
      }
      AdapterStepKeeps(old(Scan(adapter, newAdapter)), line);
      a := adapter.value;
    }

    /** `read`: scan the lines of the output and record every temperature
        in the given dictionary. */
    method Read<V>(output: string, response: map<string, V>, toFloat: string -> Option<V>) returns (r: ReadOutcome<V>)
      requires Valid()
      modifies this
      ensures Valid()
      ensures (Scan(adapter, newAdapter), r) == ReadLines(old(Scan(adapter, newAdapter)), SplitLines(output), response, toFloat)
    {
      var lines := SplitLines(output);
      var m := response;
      var i := 0;
      while i < |lines|
        invariant 0 <= i <= |lines|
        invariant Valid()
        invariant ReadLines(Scan(adapter, newAdapter), lines[i..], m, toFloat) ==
                  ReadLines(old(Scan(adapter, newAdapter)), lines, response, toFloat)
      {
        var line := lines[i];
        ReadLineAt(Scan(adapter, newAdapter), lines, i, m, toFloat);
        var a := GetAdapter(line);
        var temp := TempOf(line);
        if temp.Some? {
          var v := toFloat(temp.value.1);
          if v.None? {
            return ReadValueError(m);
          }
          m := m[Key(a, temp.value.0) := v.value];
        }
        i := i + 1;
      }
      r := ReadOk(m);
    }
  }
}
