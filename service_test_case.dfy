/** The configuration helpers of the service test case: `[[NAME]]`
    substitution in block configurations, the per-test configuration
    override, the block set-up that ties both together, and the count
    assertions on published and processed signals. */
module ServiceTestCase {
  import opened Signals
  import opened ServiceTestRouting

  type Config = map<string, Value>

  /** The text a variable's placeholder is written as. */
  function Placeholder(name: string): (p: string)
    ensures |p| == |name| + 4
  {
    "[[" + name + "]]"
  }

  /** `pat` occurs in `s` at `i`. */
  predicate At(s: string, pat: string, i: int)
  {
    0 <= i && i + |pat| <= |s| && s[i..i + |pat|] == pat
  }

  /** `pat` occurs somewhere in `s`. */
  ghost predicate Occurs(s: string, pat: string)
  {
    exists i :: At(s, pat, i)
  }

  /** `re.sub` with a literal pattern: every occurrence of `pat`, left to
      right and not overlapping, replaced by `rep`. */
  function ReplaceAll(s: string, pat: string, rep: string): string
    requires pat != ""
    decreases |s|
  {
    if |s| < |pat| then s
    else if s[..|pat|] == pat then rep + ReplaceAll(s[|pat|..], pat, rep)
    else [s[0]] + ReplaceAll(s[1..], pat, rep)
  }

  lemma OccursShort(s: string, pat: string)
    requires |s| < |pat|
    ensures !Occurs(s, pat)
  {
  }

  /** An occurrence not at the start is an occurrence in the tail. */
  lemma OccursTail(s: string, pat: string)
    requires pat != "" && |pat| <= |s| && s[..|pat|] != pat
    ensures Occurs(s, pat) <==> Occurs(s[1..], pat)
  {
    if Occurs(s, pat) {
      var i :| At(s, pat, i);
      assert i != 0;
      assert s[1..][i - 1..i - 1 + |pat|] == s[i..i + |pat|];
      assert At(s[1..], pat, i - 1);
    }
    if Occurs(s[1..], pat) {
      var i :| At(s[1..], pat, i);
      assert s[i + 1..i + 1 + |pat|] == s[1..][i..i + |pat|];
      assert At(s, pat, i + 1);
    }
  }

  /** A string is left alone exactly when the placeholder does not occur
      in it or is replaced by itself. */
  lemma {:induction false} ReplaceAllUnchanged(s: string, pat: string, rep: string)
    requires pat != ""
    ensures ReplaceAll(s, pat, rep) == s <==> rep == pat || !Occurs(s, pat)
    decreases |s|
  {
    if |s| < |pat| {
      OccursShort(s, pat);
    } else if s[..|pat|] == pat {
      assert At(s, pat, 0);
      var rest := s[|pat|..];
      ReplaceAllUnchanged(rest, pat, rep);
      assert s == pat + rest;
      if rep == pat {
        assert ReplaceAll(s, pat, rep) == pat + rest;
      } else {
        ReplaceAllLength(s, pat, rep);
        PrefixDiffers(s, pat, rep, ReplaceAll(rest, pat, rep));
      }
    } else {
      OccursTail(s, pat);
      ReplaceAllUnchanged(s[1..], pat, rep);
      assert s == [s[0]] + s[1..];
    }
  }

  /** The number of replacements `ReplaceAll` makes. */
  function Count(s: string, pat: string): nat
    requires pat != ""
    decreases |s|
  {
    if |s| < |pat| then 0
    else if s[..|pat|] == pat then 1 + Count(s[|pat|..], pat)
    else Count(s[1..], pat)
  }

  /** Replacing by a text of the same length keeps the length; a longer
      one adds at least one character per replacement, a shorter one
      removes at least one. */
  lemma {:induction false} ReplaceAllLength(s: string, pat: string, rep: string)
    requires pat != ""
    ensures |rep| == |pat| ==> |ReplaceAll(s, pat, rep)| == |s|
    ensures |rep| > |pat| ==> |ReplaceAll(s, pat, rep)| >= |s| + Count(s, pat)
    ensures |rep| < |pat| ==> |ReplaceAll(s, pat, rep)| + Count(s, pat) <= |s|
    decreases |s|
  {
    if |s| < |pat| {
    } else if s[..|pat|] == pat {
      ReplaceAllLength(s[|pat|..], pat, rep);
    } else {
      ReplaceAllLength(s[1..], pat, rep);
    }
  }

  /** Replacing a leading occurrence by a different text changes the
      string. */
  lemma PrefixDiffers(s: string, pat: string, rep: string, tail: string)
    requires pat != "" && rep != pat && |pat| <= |s| && s[..|pat|] == pat
    requires |rep| == |pat| || (|rep| > |pat| && |rep + tail| > |s|) || (|rep| < |pat| && |rep + tail| < |s|)
    ensures rep + tail != s
  {
    if |rep| == |pat| {
      var k :| 0 <= k < |pat| && rep[k] != pat[k];
      assert (rep + tail)[k] == rep[k] && s[k] == pat[k];
    }
  }

  /** No list in `v` holds an item that is neither a string nor a
      dictionary: the only kind of value substitution drops. */
  predicate Clean(v: Value)
  {
    match v
    case VDict(m) => forall k :: k in m ==> Clean(m[k])
    case VList(items) => forall i :: 0 <= i < |items| ==> (items[i].VStr? || items[i].VDict?) && Clean(items[i])
    case _ => true
  }

  /** The placeholder occurs in no string that substitution reaches. */
  ghost predicate Untouched(v: Value, pat: string)
  {
    match v
    case VStr(s) => !Occurs(s, pat)
    case VDict(m) => forall k :: k in m ==> Untouched(m[k], pat)
    case VList(items) => forall i :: 0 <= i < |items| ==> Untouched(items[i], pat)
    case _ => true
  }

  /** `_replace_env_var` on one property value: strings are substituted,
      dictionaries recursed into, lists rebuilt; anything else is kept. */
  function ReplaceIn(v: Value, pat: string, rep: string): Value
    requires pat != ""
  {
    match v
    case VStr(s) => VStr(ReplaceAll(s, pat, rep))
    case VDict(m) => VDict(map k | k in m :: ReplaceIn(m[k], pat, rep))
    case VList(items) => VList(ReplaceInList(items, pat, rep))
    case _ => v
  }

  /** The rebuilt list: string items substituted, dictionary items
      recursed into, and every other item dropped. */
  function ReplaceInList(items: seq<Value>, pat: string, rep: string): seq<Value>
    requires pat != ""
  {
    if items == [] then []
    else
      (if items[0].VStr? || items[0].VDict? then [ReplaceIn(items[0], pat, rep)] else [])
      + ReplaceInList(items[1..], pat, rep)
  }

  /** Substitution keeps the kind of every string and dictionary, never
      renames a key, and leaves every value that is not a string, a
      dictionary or a list as it is. */
  lemma ReplaceInShape(v: Value, pat: string, rep: string)
    requires pat != ""
    ensures v.VStr? <==> ReplaceIn(v, pat, rep).VStr?
    ensures v.VDict? <==> ReplaceIn(v, pat, rep).VDict?
    ensures v.VDict? ==> ReplaceIn(v, pat, rep).entries.Keys == v.entries.Keys
    ensures v.VList? <==> ReplaceIn(v, pat, rep).VList?
    ensures !v.VStr? && !v.VDict? && !v.VList? ==> ReplaceIn(v, pat, rep) == v
  {
  }

  /** What substitution leaves is clean. */
  lemma {:induction false} ReplaceInClean(v: Value, pat: string, rep: string)
    requires pat != ""
    ensures Clean(ReplaceIn(v, pat, rep))
    decreases v, 1
  {
    match v
    case VDict(m) =>
      forall k | k in m
        ensures Clean(ReplaceIn(v, pat, rep).entries[k])
      {
        ReplaceInClean(m[k], pat, rep);
      }
    case VList(items) =>
      ReplaceInListClean(items, pat, rep);
      assert ReplaceIn(v, pat, rep) == VList(ReplaceInList(items, pat, rep));
    case _ =>
  }

  lemma {:induction false} ReplaceInListClean(items: seq<Value>, pat: string, rep: string)
    requires pat != ""
    ensures Clean(VList(ReplaceInList(items, pat, rep)))
    decreases items, 0
  {
    if items != [] {
      var r, t := ReplaceInList(items, pat, rep), ReplaceInList(items[1..], pat, rep);
      ReplaceInListClean(items[1..], pat, rep);
      if items[0].VStr? || items[0].VDict? {
        ReplaceInClean(items[0], pat, rep);
        ReplaceInShape(items[0], pat, rep);
        assert r == [ReplaceIn(items[0], pat, rep)] + t;
        assert forall i :: 0 < i < |r| ==> r[i] == t[i - 1];
      } else {
        assert r == t;
      }
    }
  }

  /** Substitution leaves a value alone exactly when nothing would be
      dropped and the placeholder is replaced by itself or occurs nowhere. */
  lemma {:induction false} ReplaceInUnchanged(v: Value, pat: string, rep: string)
    requires pat != ""
    ensures ReplaceIn(v, pat, rep) == v <==> Clean(v) && (rep == pat || Untouched(v, pat))
    decreases v, 1
  {
    match v
    case VStr(s) =>
      ReplaceAllUnchanged(s, pat, rep);
    case VDict(m) =>
      var r := ReplaceIn(v, pat, rep).entries;
      forall k | k in m
        ensures r[k] == m[k] <==> Clean(m[k]) && (rep == pat || Untouched(m[k], pat))
      {
        ReplaceInUnchanged(m[k], pat, rep);
      }
      if r == m {
        assert forall k :: k in m ==> r[k] == m[k];
      }
      if Clean(v) && (rep == pat || Untouched(v, pat)) {
        assert r == m;
      }
    case VList(items) =>
      ReplaceInListUnchanged(items, pat, rep);
    case _ =>
  }

  lemma {:induction false} ReplaceInListUnchanged(items: seq<Value>, pat: string, rep: string)
    requires pat != ""
    ensures ReplaceInList(items, pat, rep) == items <==> Clean(VList(items)) && (rep == pat || Untouched(VList(items), pat))
    decreases items, 0
  {
    if items != [] {
      ReplaceInListUnchanged(items[1..], pat, rep);
      ReplaceInUnchanged(items[0], pat, rep);
      ListSameCons(items, pat, rep);
      ListCleanCons(items, pat, rep);
    }
  }

  /** A rebuilt list equals the original exactly when its head is kept
      and substituted to itself, and so is its tail. */
  lemma ListSameCons(items: seq<Value>, pat: string, rep: string)
    requires pat != "" && items != []
    ensures ReplaceInList(items, pat, rep) == items <==>
      (items[0].VStr? || items[0].VDict?) && ReplaceIn(items[0], pat, rep) == items[0]
      && ReplaceInList(items[1..], pat, rep) == items[1..]
  {
    var x, rest := items[0], items[1..];
    var t := ReplaceInList(rest, pat, rep);
    ReplaceInListShorter(rest, pat, rep);
    assert items == [x] + rest;
    if x.VStr? || x.VDict? {
      var r := [ReplaceIn(x, pat, rep)] + t;
      assert ReplaceInList(items, pat, rep) == r;
      if r == items {
        assert r[0] == x;
        assert r[1..] == t;
      }
    } else {
      assert ReplaceInList(items, pat, rep) == t;
    }
  }

  /** A list is clean and untouched exactly when its head is a clean,
      untouched string or dictionary and its tail is clean and
      untouched. */
  lemma ListCleanCons(items: seq<Value>, pat: string, rep: string)
    requires items != []
    ensures Clean(VList(items)) && (rep == pat || Untouched(VList(items), pat)) <==>
      (items[0].VStr? || items[0].VDict?) && Clean(items[0]) && (rep == pat || Untouched(items[0], pat))
      && Clean(VList(items[1..])) && (rep == pat || Untouched(VList(items[1..]), pat))
  {
    var rest := items[1..];
    assert forall i :: 0 < i < |items| ==> items[i] == rest[i - 1];
    assert forall i :: 0 <= i < |rest| ==> rest[i] == items[i + 1];
  }

  /** The rebuilt list is never longer than the original. */
  lemma {:induction false} ReplaceInListShorter(items: seq<Value>, pat: string, rep: string)
    requires pat != ""
    ensures |ReplaceInList(items, pat, rep)| <= |items|
  {
    if items != [] {
      ReplaceInListShorter(items[1..], pat, rep);
    }
  }

  /** `_replace_env_var`: substitute one variable throughout a block
      configuration. */
  function ReplaceVar(config: Config, name: string, text: string): Config
  {
    ReplaceIn(VDict(config), Placeholder(name), text).entries
  }

  /** `_replace_env_vars`: each variable substituted in turn, in the
      order the test lists them. */
  function ReplaceVars(config: Config, vars: seq<(string, string)>): Config
  {
    if vars == [] then config
    else ReplaceVar(ReplaceVars(config, vars[..|vars| - 1]), vars[|vars| - 1].0, vars[|vars| - 1].1)
  }

  /** Substitution never adds or removes a key of the configuration. */
  lemma {:induction false} ReplaceVarsKeys(config: Config, vars: seq<(string, string)>)
    ensures ReplaceVars(config, vars).Keys == config.Keys
    decreases |vars|
  {
    if vars != [] {
      ReplaceVarsKeys(config, vars[..|vars| - 1]);
    }
  }

  /** Substituting a variable in a configuration that neither mentions
      it nor holds a list item that would be dropped changes nothing. */
  lemma ReplaceVarUnchanged(config: Config, name: string, text: string)
    ensures ReplaceVar(config, name, text) == config <==>
            Clean(VDict(config)) && (text == Placeholder(name) || Untouched(VDict(config), Placeholder(name)))
  {
    ReplaceInUnchanged(VDict(config), Placeholder(name), text);
  }

  /** The configuration `_override_block_config` looks up: the override
      for the block's name, else the configuration itself. */
  function OverrideFor(config: Config, overrides: map<string, Config>): Config
    requires "name" in config
  {
    var n := config["name"];
    if n.VStr? && n.s in overrides then overrides[n.s] else config
  }

  /** Overriding sets every overridden key to the override's value, keeps
      every other key, and changes nothing without an override. */
  lemma OverrideMeaning(config: Config, overrides: map<string, Config>)
    requires "name" in config
    ensures var r := config + OverrideFor(config, overrides);
      var n := config["name"];
      && (n.VStr? && n.s in overrides ==>
            && r.Keys == config.Keys + overrides[n.s].Keys
            && (forall k :: k in overrides[n.s] ==> r[k] == overrides[n.s][k])
            && (forall k :: k in config && k !in overrides[n.s] ==> r[k] == config[k]))
      && (!(n.VStr? && n.s in overrides) ==> r == config)
  {
  }

  /** The outcome of a count assertion. */
  datatype Check = Passed | TypeError | AssertionError

  /** `isinstance(expected, int)`: booleans are integers in Python. */
  predicate IsInt(v: Value)
  {
    v.VInt? || v.VBool?
  }

  function IntOf(v: Value): int
    requires IsInt(v)
  {
    if v.VInt? then v.i else if v.b then 1 else 0
  }

  /** The check both count assertions make. */
  function CountCheck(expected: Value, actual: nat): Check
  {
    if !IsInt(expected) then TypeError
    else if actual != IntOf(expected) then AssertionError
    else Passed
  }

  /** `assert_num_signals_published`: passes exactly when the expected
      value is an integer equal to the number of published signals. */
  function AssertNumPublished(expected: Value, published: seq<Signal>): (r: Check)
    ensures r == Passed <==> IsInt(expected) && IntOf(expected) == |published|
    ensures r == TypeError <==> !IsInt(expected)
    ensures r == AssertionError <==> IsInt(expected) && IntOf(expected) != |published|
  {
    CountCheck(expected, |published|)
  }

  /** `assert_num_signals_processed`: compares with the length of the list
      recorded for the block on the given input, or for the block on all
      its inputs when none is given; a block or input never recorded
      counts 0. */
  function AssertNumProcessed(expected: Value, processed: map<string, seq<Signal>>,
                              processedInput: map<(string, Option<string>), seq<Signal>>,
                              block: string, inputId: Option<string>): (r: Check)
    ensures var actual := if inputId.Some? then |Get(processedInput, (block, inputId))| else |Get(processed, block)|;
      && (r == Passed <==> IsInt(expected) && IntOf(expected) == actual)
      && (r == TypeError <==> !IsInt(expected))
      && (r == AssertionError <==> IsInt(expected) && IntOf(expected) != actual)
    ensures (if inputId.Some? then (block, inputId) !in processedInput else block !in processed) ==>
              r == CountCheck(expected, 0)
  {
    var actual :=
      if inputId.Some? then (if (block, inputId) in processedInput then |processedInput[(block, inputId)]| else 0)
      else (if block in processed then |processed[block]| else 0);
    CountCheck(expected, actual)
  }

  /** A count assertion passes exactly for an integer equal to the count;
      it raises TypeError for any other expected value and AssertionError
      for a wrong count. */
  lemma CountCheckMeaning(expected: Value, actual: nat)
    ensures CountCheck(expected, actual) == Passed <==> IsInt(expected) && IntOf(expected) == actual
    ensures CountCheck(expected, actual) == TypeError <==> !IsInt(expected)
    ensures CountCheck(expected, actual) == AssertionError <==> IsInt(expected) && IntOf(expected) != actual
    ensures CountCheck(VBool(true), 1) == Passed && CountCheck(VBool(false), 0) == Passed
  {
  }

  /** After the router delivers `signals` along `rs`, the processed count
      of a block is what was recorded before plus the number of signals
      once per delivery to the block (on the given input, when one is
      given). */
  lemma AssertNumProcessedAfterRoute(expected: Value, rec: Records, rs: seq<Receiver>, signals: seq<Signal>,
                                     block: string, inputId: Option<string>)
    ensures var after := RecordAll(rec, rs, signals);
      var before := if inputId.Some? then |Get(rec.processedInput, (block, inputId))| else |Get(rec.processed, block)|;
      var n := if inputId.Some? then InputOccurrences(rs, block, inputId) else Occurrences(rs, block);
      AssertNumProcessed(expected, after.processed, after.processedInput, block, inputId) ==
      CountCheck(expected, before + n * |signals|)
  {
    var after := RecordAll(rec, rs, signals);
    if inputId.Some? {
      var n := InputOccurrences(rs, block, inputId);
      RecordAllInputCounts(rec, rs, signals, block, inputId);
      RepeatLength(signals, n);
      ProcessedCount(expected, after.processed, after.processedInput, block, inputId,
                     |Get(rec.processedInput, (block, inputId))| + n * |signals|);
    } else {
      var n := Occurrences(rs, block);
      RecordAllCounts(rec, rs, signals, block);
      RepeatLength(signals, n);
      ProcessedCount(expected, after.processed, after.processedInput, block, inputId,
                     |Get(rec.processed, block)| + n * |signals|);
    }
  }

  /** The processed count assertion compares with the recorded length. */
  lemma ProcessedCount(expected: Value, processed: map<string, seq<Signal>>,
                       processedInput: map<(string, Option<string>), seq<Signal>>,
                       block: string, inputId: Option<string>, actual: nat)
    requires actual == if inputId.Some? then |Get(processedInput, (block, inputId))| else |Get(processed, block)|
    ensures AssertNumProcessed(expected, processed, processedInput, block, inputId) == CountCheck(expected, actual)
  {
  }

  /** The mappings of the service configuration: a later entry for a name
      replaces an earlier one. */
  function MappingsOf(mappings: seq<(string, string)>): map<string, string>
  {
    if mappings == [] then map[]
    else MappingsOf(mappings[..|mappings| - 1])[mappings[|mappings| - 1].0 := mappings[|mappings| - 1].1]
  }

  /** The name whose configuration a service block takes. */
  function MappedName(m: map<string, string>, name: string): string
  {
    if name in m then m[name] else name
  }

  /** The configuration a block is configured with: its stored one named
      after the service block, overridden, and with every variable
      substituted. */
  function Configured(stored: Config, name: string, overrides: map<string, Config>,
                      vars: seq<(string, string)>): Config
  {
    var named := stored["name" := VStr(name)];
    ReplaceVars(named + OverrideFor(named, overrides), vars)
  }

  /** The state `_setup_blocks` changes: the stored configurations (each
      set-up rewrites the stored dictionary in place) and the configured
      blocks. */
  datatype Setup = Setup(blockConfigs: map<string, Config>, blocks: map<string, Config>)

  /** Setting up one service block: skipped when its mapped configuration
      is missing or empty. */
  function SetupOne(s: Setup, m: map<string, string>, name: string, overrides: map<string, Config>,
                    vars: seq<(string, string)>): Setup
  {
    var mapped := MappedName(m, name);
    if mapped !in s.blockConfigs || s.blockConfigs[mapped] == map[] then s
    else
      var c := Configured(s.blockConfigs[mapped], name, overrides, vars);
      Setup(s.blockConfigs[mapped := c], s.blocks[name := c])
  }

  function SetupAll(s: Setup, m: map<string, string>, names: seq<string>, overrides: map<string, Config>,
                    vars: seq<(string, string)>): Setup
  {
    if names == [] then s
    else SetupOne(SetupAll(s, m, names[..|names| - 1], overrides, vars), m, names[|names| - 1], overrides, vars)
  }

  /** A service block is configured exactly when its mapped configuration
      exists and is not empty; it is stored under its own name, its
      configuration names it before overrides and substitution, and no
      other block changes. */
  lemma SetupOneMeaning(s: Setup, m: map<string, string>, name: string, overrides: map<string, Config>,
                        vars: seq<(string, string)>)
    ensures var s', mapped := SetupOne(s, m, name, overrides, vars), MappedName(m, name);
      && (name in s'.blocks <==> name in s.blocks || (mapped in s.blockConfigs && s.blockConfigs[mapped] != map[]))
      && (mapped in s.blockConfigs && s.blockConfigs[mapped] != map[] ==>
            s'.blocks[name] == Configured(s.blockConfigs[mapped], name, overrides, vars))
      && (forall b :: b in s.blocks && b != name ==> b in s'.blocks && s'.blocks[b] == s.blocks[b])
      && s'.blocks.Keys <= s.blocks.Keys + {name}
  {
  }

  /** Every configured block carries the keys of its stored configuration,
      its name and its override's keys. */
  lemma ConfiguredKeys(stored: Config, name: string, overrides: map<string, Config>, vars: seq<(string, string)>)
    ensures var keys := Configured(stored, name, overrides, vars).Keys;
      && stored.Keys + {"name"} <= keys
      && (name in overrides ==> overrides[name].Keys <= keys)
  {
    var named := stored["name" := VStr(name)];
    ReplaceVarsKeys(named + OverrideFor(named, overrides), vars);
  }

  /** The part of an override already copied: every key not still to do. */
  function Done(newConfig: Config, todo: set<string>): Config
  {
    map k | k in newConfig && k !in todo :: newConfig[k]
  }

  lemma DoneStep(config: Config, newConfig: Config, todo: set<string>, p: string)
    requires p in todo && todo <= newConfig.Keys
    ensures (config + Done(newConfig, todo))[p := newConfig[p]] == config + Done(newConfig, todo - {p})
  {
  }

  class ServiceTest {
    /** `block_configs`: the stored block configurations by name. */
    var blockConfigs: map<string, Config>
    /** The configuration each service block was configured with. */
    var blocks: map<string, Config>

    constructor (blockConfigs: map<string, Config>)
      ensures this.blockConfigs == blockConfigs && blocks == map[]
    {
      this.blockConfigs := blockConfigs;
      blocks := map[];
    }

    /** `_replace_env_vars`. */
    static method ReplaceEnvVars(config: Config, vars: seq<(string, string)>) returns (r: Config)
      ensures r == ReplaceVars(config, vars)
      ensures r.Keys == config.Keys
    {
      r := config;
      var i := 0;
      while i < |vars|
        invariant 0 <= i <= |vars|
        invariant r == ReplaceVars(config, vars[..i])
      {
        assert vars[..i + 1][..i] == vars[..i];
        r := ReplaceVar(r, vars[i].0, vars[i].1);
        i := i + 1;
      }
      assert vars[..|vars|] == vars;
      ReplaceVarsKeys(config, vars);
    }

    /** `_override_block_config`: copy every key of the block's override
        onto its configuration. */
    static method OverrideBlockConfig(config: Config, overrides: map<string, Config>) returns (r: Config)
      requires "name" in config
      ensures r == config + OverrideFor(config, overrides)
    {
      var newConfig := OverrideFor(config, overrides);
      r := config;
      var todo := newConfig.Keys;
      while todo != {}
        invariant todo <= newConfig.Keys
        invariant r == config + Done(newConfig, todo)
        decreases |todo|
      {
        var property :| property in todo;
        DoneStep(config, newConfig, todo, property);
        r := r[property := newConfig[property]];
        todo := todo - {property};
      }
      assert Done(newConfig, {}) == newConfig;
    }

    /** `_setup_blocks`: configure every service block that has a stored
        configuration under its mapped name. */
    method SetupBlocks(names: seq<string>, mappings: seq<(string, string)>, overrides: map<string, Config>,
                       vars: seq<(string, string)>)
      modifies this
      ensures Setup(blockConfigs, blocks) ==
              SetupAll(Setup(old(blockConfigs), old(blocks)), MappingsOf(mappings), names, overrides, vars)
    {
      var m := map[];
      var j := 0;
      while j < |mappings|
        invariant 0 <= j <= |mappings|
        invariant m == MappingsOf(mappings[..j])
      {
        assert mappings[..j + 1][..j] == mappings[..j];
        m := m[mappings[j].0 := mappings[j].1];
        j := j + 1;
      }
      assert mappings[..|mappings|] == mappings;
      ghost var s0 := Setup(blockConfigs, blocks);
      var i := 0;
      while i < |names|
        invariant 0 <= i <= |names|
        invariant Setup(blockConfigs, blocks) == SetupAll(s0, m, names[..i], overrides, vars)
      {
        assert names[..i + 1][..i] == names[..i];
        var name := names[i];
        var mapped := MappedName(m, name);
        if mapped in blockConfigs && blockConfigs[mapped] != map[] {
          var config := blockConfigs[mapped];
          config := config["name" := VStr(name)];
          config := OverrideBlockConfig(config, overrides);
          config := ReplaceEnvVars(config, vars);
          blockConfigs := blockConfigs[mapped := config];
          blocks := blocks[name := config];
        }
        i := i + 1;
      }
      assert names[..|names|] == names;
    }
  }
}
