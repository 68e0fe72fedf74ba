/** The part of `main` in the second-generation probe (check_redis_2.py)
    that builds the check set: every `--include` name as a forced check,
    or else every name `list_checks` offers; minus the `--exclude` names;
    then each `--check-config` entry applied to its check. Then the checks
    are resolved against the snapshot and reported. */
module Setup {
  import opened Base
  import opened Text
  import opened Info
  import opened Checks
  import opened Resolver
  import opened Reporter
  import opened Ordering

  /** The names the check set starts from. */
  function BaseNames(info: Snapshot, included: seq<string>): set<string>
  {
    if |included| > 0 then set k | k in included else set k | k in ListChecks(info)
  }

  function InitialChecks(info: Snapshot, included: seq<string>): map<string, Check>
  {
    map k | k in BaseNames(info, included) :: NewCheck(k, |included| > 0)
  }

  function WithoutExcluded(checks: map<string, Check>, excluded: seq<string>): map<string, Check>
  {
    map k | k in checks && k !in excluded :: checks[k]
  }

  /** `float(data[n]) if len(data) >= n + 1 else None`. */
  function OptionalField(data: seq<string>, n: nat): Result<Option<real>>
  {
    if |data| <= n then Ok(None)
    else
      match ParseReal(data[n])
      case None => Fail(ValueError)
      case Some(x) => Ok(Some(x))
  }

  /** The assignments one `--check-config` entry makes to its check: the
      warning limit from field 1, the critical limit and the minimum both
      from field 2, the maximum from field 3, descending only for a `d` in
      field 5. */
  function Configure(c: Check, data: seq<string>): Result<Check>
  {
    match OptionalField(data, 1)
    case Fail(e) => Fail(e)
    case Ok(warning) =>
      match OptionalField(data, 2)
      case Fail(e) => Fail(e)
      case Ok(critical) =>
        match OptionalField(data, 3)
        case Fail(e) => Fail(e)
        case Ok(maximum) =>
          Ok(c.(warningLimit := warning, errorLimit := critical, minimum := critical,
                maximum := maximum, ascending := !(|data| >= 6 && data[5] == "d")))
  }

  /** One `--check-config` entry: ignored when its key is not in the set. */
  function ApplyConfig(checks: map<string, Check>, line: string): Result<map<string, Check>>
  {
    var data := Split(line, ',');
    var key := data[0];
    if key !in checks then Ok(checks)
    else
      match Configure(checks[key], data)
      case Fail(e) => Fail(e)
      case Ok(c) => Ok(checks[key := c])
  }

  function ApplyConfigs(checks: map<string, Check>, lines: seq<string>): Result<map<string, Check>>
    decreases |lines|
  {
    if lines == [] then Ok(checks)
    else
      match ApplyConfig(checks, lines[0])
      case Fail(e) => Fail(e)
      case Ok(next) => ApplyConfigs(next, lines[1..])
  }

  function Assembled(info: Snapshot, included: seq<string>, excluded: seq<string>, configs: seq<string>)
    : Result<map<string, Check>>
  {
    ApplyConfigs(WithoutExcluded(InitialChecks(info, included), excluded), configs)
  }

  /** Lines 234-241 of `main`: one fresh check per included name, or else
      per listed name. */
  method StartChecks(info: Snapshot, included: seq<string>) returns (checks: map<string, Check>)
    ensures checks == InitialChecks(info, included)
  {
    checks := map[];
    var names := if |included| > 0 then included else ListChecks(info);
    var forced := |included| > 0;
    for i := 0 to |names|
      invariant checks == map k | k in names[..i] :: NewCheck(k, forced)
    {
      assert names[..i + 1] == names[..i] + [names[i]];
      checks := checks[names[i] := NewCheck(names[i], forced)];
    }
    assert names[..|names|] == names;
  }

  /** Lines 243-245 of `main`: each excluded name that is in the set is
      popped from it. */
  method DropExcluded(initial: map<string, Check>, excluded: seq<string>) returns (checks: map<string, Check>)
    ensures checks == WithoutExcluded(initial, excluded)
  {
    checks := initial;
    for i := 0 to |excluded|
      invariant checks == map k | k in initial && k !in excluded[..i] :: initial[k]
    {
      assert excluded[..i + 1] == excluded[..i] + [excluded[i]];
      var key := excluded[i];
      if key in checks {
        checks := checks - {key};
      }
    }
    assert excluded[..|excluded|] == excluded;
  }

  /** Lines 247-257 of `main`: each `--check-config` entry in turn. */
  method ConfigureChecks(initial: map<string, Check>, configs: seq<string>) returns (r: Result<map<string, Check>>)
    ensures r == ApplyConfigs(initial, configs)
  {
    var checks := initial;
    for i := 0 to |configs|
      invariant ApplyConfigs(initial, configs) == ApplyConfigs(checks, configs[i..])
    {
      assert configs[i..][1..] == configs[i + 1..];
      var data := Split(configs[i], ',');
      var key := data[0];
      if key !in checks {
        continue;
      }
      var check := checks[key];
      var warning: Option<real> := None;
      if |data| >= 2 {
        var x := ParseReal(data[1]);
        if x.None? {
          return Fail(ValueError);
        }
        warning := Some(x.value);
      }
      var critical: Option<real> := None;
      if |data| >= 3 {
        var x := ParseReal(data[2]);
        if x.None? {
          return Fail(ValueError);
        }
        critical := Some(x.value);
      }
      var maximum: Option<real> := None;
      if |data| >= 4 {
        var x := ParseReal(data[3]);
        if x.None? {
          return Fail(ValueError);
        }
        maximum := Some(x.value);
      }
      check := check.(warningLimit := warning, errorLimit := critical, minimum := critical,
                      maximum := maximum, ascending := !(|data| >= 6 && data[5] == "d"));
      checks := checks[key := check];
    }
    r := Ok(checks);
  }

  /** Lines 234-257 of `main`. */
  method AssembleChecks(info: Snapshot, included: seq<string>, excluded: seq<string>, configs: seq<string>)
    returns (r: Result<map<string, Check>>)
    ensures r == Assembled(info, included, excluded, configs)
  {
    var initial := StartChecks(info, included);
    var kept := DropExcluded(initial, excluded);
    r := ConfigureChecks(kept, configs);
  }

  /** Lines 234-260 of `main`: assemble the checks, resolve them, report;
      the report's code is what the process exits with. */
  method CheckRedis(info: Snapshot, included: seq<string>, excluded: seq<string>, configs: seq<string>)
    returns (r: Result<Report>)
    ensures Assembled(info, included, excluded, configs).Fail? ==>
      r == Fail(Assembled(info, included, excluded, configs).error)
    ensures (Assembled(info, included, excluded, configs).Ok?
             && !Resolvable(info, Assembled(info, included, excluded, configs).value)) ==> r.Fail?
    ensures (Assembled(info, included, excluded, configs).Ok?
             && Resolvable(info, Assembled(info, included, excluded, configs).value)) ==>
      r == Processed(Resolved(info, Assembled(info, included, excluded, configs).value))
  {
    var checks := AssembleChecks(info, included, excluded, configs);
    if checks.Fail? {
      return Fail(checks.error);
    }
    var resolved := ResolveChecks(info, checks.value);
    if resolved.Fail? {
      return Fail(resolved.error);
    }
    r := Process(resolved.value);
  }

  /** What a configuration entry leaves alone. */
  predicate SameIdentity(a: Check, b: Check)
  {
    a.key == b.key && a.value == b.value && a.forced == b.forced
  }

  /** A configuration entry either raises ValueError, exactly when one of
      the fields 1 to 3 it gives is not a number, or sets both limits, both
      bounds and the direction from its fields, resetting every field it
      does not give to None. The minimum is read from the critical field,
      not from field 4; descending needs at least six fields. */
  lemma ConfigureFields(c: Check, data: seq<string>)
    ensures Configure(c, data).Fail? <==>
      (|data| >= 2 && ParseReal(data[1]).None?)
      || (|data| >= 3 && ParseReal(data[2]).None?)
      || (|data| >= 4 && ParseReal(data[3]).None?)
    ensures Configure(c, data).Fail? ==> Configure(c, data).error == ValueError
    ensures Configure(c, data).Ok? ==>
      var d := Configure(c, data).value;
      SameIdentity(d, c)
      && d.warningLimit == (if |data| >= 2 then ParseReal(data[1]) else None)
      && d.errorLimit == (if |data| >= 3 then ParseReal(data[2]) else None)
      && d.minimum == d.errorLimit
      && d.maximum == (if |data| >= 4 then ParseReal(data[3]) else None)
      && (d.ascending <==> !(|data| >= 6 && data[5] == "d"))
  {
  }

  /** The direction letter of the documented format
      `key,warning,critical,([a]|d),min,max` sits in field 3, which is read
      as the maximum: giving it makes `float()` raise. */
  lemma DirectionLetterRaises(c: Check, data: seq<string>)
    requires |data| >= 4 && (data[3] == "a" || data[3] == "d")
    ensures Configure(c, data) == Fail(ValueError)
  {
    SplitNoSeparator(data[3], '.');
    assert !IsDigit(data[3][0]);
  }

  /** So a descending check can only come from an entry whose field 3 is a
      number and whose field 5 is `d`. */
  lemma DescendingNeedsNumericMaximum(c: Check, data: seq<string>)
    requires Configure(c, data).Ok? && !Configure(c, data).value.ascending
    ensures |data| >= 6 && data[5] == "d"
    ensures ParseReal(data[3]).Some? && Configure(c, data).value.maximum.Some?
  {
    ConfigureFields(c, data);
  }

  /** An entry whose key is not in the set changes nothing, even when its
      other fields are not numbers. */
  lemma ConfigForAbsentKey(checks: map<string, Check>, line: string)
    requires Split(line, ',')[0] !in checks
    ensures ApplyConfig(checks, line) == Ok(checks)
  {
  }

  /** An entry for a key in the set changes that check alone; the error it
      can raise is ValueError. */
  lemma ConfigForPresentKey(checks: map<string, Check>, line: string)
    requires Split(line, ',')[0] in checks
    ensures ApplyConfig(checks, line).Ok? ==>
      var key := Split(line, ',')[0];
      ApplyConfig(checks, line).value.Keys == checks.Keys
      && Configure(checks[key], Split(line, ',')) == Ok(ApplyConfig(checks, line).value[key])
      && forall k :: k in checks && k != key ==> ApplyConfig(checks, line).value[k] == checks[k]
    ensures ApplyConfig(checks, line).Fail? ==> ApplyConfig(checks, line).error == ValueError
  {
  }

  /** Configuration entries keep the names of the set and the name, value
      and forced flag of each check; the only error they raise is
      ValueError. */
  lemma {:induction false} ApplyConfigsPreserves(checks: map<string, Check>, lines: seq<string>)
    ensures ApplyConfigs(checks, lines).Ok? ==>
      ApplyConfigs(checks, lines).value.Keys == checks.Keys
      && forall k :: k in checks ==> SameIdentity(ApplyConfigs(checks, lines).value[k], checks[k])
    ensures ApplyConfigs(checks, lines).Fail? ==> ApplyConfigs(checks, lines).error == ValueError
    decreases |lines|
  {
    if lines != [] {
      var line := lines[0];
      var key := Split(line, ',')[0];
      if key in checks {
        ConfigureFields(checks[key], Split(line, ','));
      }
      if ApplyConfig(checks, line).Ok? {
        ApplyConfigsPreserves(ApplyConfig(checks, line).value, lines[1..]);
      }
    }
  }

  /** The set of checks `main` hands on: a check named `k` for every
      included name (or, with no `--include`, every listed name) that is not
      excluded, forced exactly when names were included, and not yet
      resolved. Assembly raises only ValueError, from a configuration entry. */
  lemma AssembledChecks(info: Snapshot, included: seq<string>, excluded: seq<string>, configs: seq<string>)
    ensures Assembled(info, included, excluded, configs).Ok? ==>
      var m := Assembled(info, included, excluded, configs).value;
      (forall k :: k in m <==> k in BaseNames(info, included) && k !in excluded)
      && forall k :: k in m ==> m[k].key == k && m[k].value.None? && (m[k].forced <==> |included| > 0)
    ensures Assembled(info, included, excluded, configs).Fail? ==>
      Assembled(info, included, excluded, configs).error == ValueError
  {
    ApplyConfigsPreserves(WithoutExcluded(InitialChecks(info, included), excluded), configs);
  }

  /** A snapshot of 80 hits, 20 misses and 100 bytes of memory, with
      `used_memory` limited to 50 and 90 and `hit_ratio` to 0.9 and 0.95 as
      the configuration entries set them (ascending, forced). */
  const ScenarioInfo: Snapshot := [("keyspace_hits", Int(80)), ("keyspace_misses", Int(20)), ("used_memory", Int(100))]
  const ScenarioMemory := Check("used_memory", None, Some(50.0), Some(90.0), true, Some(90.0), None, true)
  const ScenarioRatio := Check("hit_ratio", None, Some(0.9), Some(0.95), true, Some(0.95), None, true)

  const ScenarioChecks := map["hit_ratio" := ScenarioRatio, "used_memory" := ScenarioMemory]

  /** The command line of the scenario: both names included, and one
      `--check-config` entry for each. */
  const ScenarioIncluded := ["used_memory", "hit_ratio"]
  const ScenarioConfigs := [Entry("used_memory", "50", "90"), Entry("hit_ratio", "0.9", "0.95")]

  /** A `--check-config` entry `key,warning,critical`. */
  function Entry(key: string, warning: string, critical: string): string
  {
    key + "," + warning + "," + critical
  }

  /** Such an entry splits back into its three fields when none holds a
      comma. */
  lemma EntryFields(key: string, warning: string, critical: string)
    requires ',' !in key && ',' !in warning && ',' !in critical
    ensures Split(Entry(key, warning, critical), ',') == [key, warning, critical]
  {
    SplitThree(key, warning, critical, ',');
  }

  lemma ScenarioFields()
    ensures Split(ScenarioConfigs[0], ',') == ["used_memory", "50", "90"]
    ensures Split(ScenarioConfigs[1], ',') == ["hit_ratio", "0.9", "0.95"]
  {
    EntryFields("used_memory", "50", "90");
    EntryFields("hit_ratio", "0.9", "0.95");
  }

  lemma ScenarioConfiguresMemory()
    ensures Configure(NewCheck("used_memory", true), ["used_memory", "50", "90"]) == Ok(ScenarioMemory)
  {
    ReadsTwoDigits('5', '0');
    ReadsTwoDigits('9', '0');
  }

  lemma ScenarioConfiguresRatio()
    ensures Configure(NewCheck("hit_ratio", true), ["hit_ratio", "0.9", "0.95"]) == Ok(ScenarioRatio)
  {
    ReadsPointNine();
    ReadsPointNineFive();
  }

  /** The fresh forced checks of the included names. */
  const ScenarioStart := map["hit_ratio" := NewCheck("hit_ratio", true), "used_memory" := NewCheck("used_memory", true)]

  lemma ScenarioStarts()
    ensures WithoutExcluded(InitialChecks(ScenarioInfo, ScenarioIncluded), []) == ScenarioStart
  {
    assert BaseNames(ScenarioInfo, ScenarioIncluded) == {"used_memory", "hit_ratio"};
    assert InitialChecks(ScenarioInfo, ScenarioIncluded) == ScenarioStart;
  }

  lemma ScenarioFirstEntry()
    ensures ApplyConfig(ScenarioStart, ScenarioConfigs[0]) == Ok(ScenarioStart["used_memory" := ScenarioMemory])
  {
    ScenarioFields();
    ScenarioConfiguresMemory();
  }

  lemma ScenarioSecondEntry()
    ensures ApplyConfig(ScenarioStart["used_memory" := ScenarioMemory], ScenarioConfigs[1]) == Ok(ScenarioChecks)
  {
    var half := ScenarioStart["used_memory" := ScenarioMemory];
    ScenarioFields();
    ScenarioConfiguresRatio();
    assert half["hit_ratio"] == NewCheck("hit_ratio", true);
    ScenarioChecksByUpdate();
  }

  lemma ScenarioChecksByUpdate()
    ensures ScenarioStart["used_memory" := ScenarioMemory]["hit_ratio" := ScenarioRatio] == ScenarioChecks
  {
    var m := ScenarioStart["used_memory" := ScenarioMemory]["hit_ratio" := ScenarioRatio];
    assert m.Keys == ScenarioChecks.Keys;
    assert m["hit_ratio"] == ScenarioChecks["hit_ratio"];
    assert m["used_memory"] == ScenarioChecks["used_memory"];
  }

  /** The scenario's check set is what `main` assembles from its command
      line: `--include used_memory hit_ratio` with the entries
      `used_memory,50,90` and `hit_ratio,0.9,0.95`. */
  lemma ScenarioAssembled()
    ensures Assembled(ScenarioInfo, ScenarioIncluded, [], ScenarioConfigs) == Ok(ScenarioChecks)
  {
    ScenarioStarts();
    ScenarioFirstEntry();
    ScenarioSecondEntry();
    var half := ScenarioStart["used_memory" := ScenarioMemory];
    assert ScenarioConfigs[1..] == [ScenarioConfigs[1]] && ScenarioConfigs[1..][1..] == [];
    assert ApplyConfigs(half, ScenarioConfigs[1..]) == Ok(ScenarioChecks);
  }

  /** `hit_ratio` resolves to 0.8, which `int()` stores as 0. */
  lemma ScenarioRatioResolves()
    ensures ResolveOne(ScenarioInfo, ScenarioRatio) == Ok(ScenarioRatio.(value := Some(IntV(0))))
  {
    var info := ScenarioInfo;
    assert Lookup(info, "hit_ratio") == None;
    assert Counters(info) == Ok((80.0, 20.0));
    assert HitRatio(info) == Ok(Some(0.8));
    assert GetValue(info, "hit_ratio") == Ok(Some(Real(0.8)));
    CoerceTruncatesFloats(0.8);
  }

  lemma ScenarioMemoryResolves()
    ensures ResolveOne(ScenarioInfo, ScenarioMemory) == Ok(ScenarioMemory.(value := Some(IntV(100))))
  {
    assert Lookup(ScenarioInfo, "used_memory") == Some(Int(100));
  }

  lemma ScenarioResolved()
    ensures Resolvable(ScenarioInfo, ScenarioChecks)
    ensures Resolved(ScenarioInfo, ScenarioChecks)
            == map["hit_ratio" := ScenarioRatio.(value := Some(IntV(0))),
                   "used_memory" := ScenarioMemory.(value := Some(IntV(100)))]
  {
    ScenarioRatioResolves();
    ScenarioMemoryResolves();
    assert ScenarioChecks.Keys == {"hit_ratio", "used_memory"};
    forall k | k in ScenarioChecks
      ensures ResolveOne(ScenarioInfo, ScenarioChecks[k]).Ok?
    {
      assert k == "hit_ratio" || k == "used_memory";
    }
  }

  /** Assembled from the scenario's command line, `used_memory` resolves
      to 100 and `hit_ratio` to 0.8, which `int()` stores as 0: the ratio
      check is quiet, the memory check is over its
      critical limit, and the script exits CRITICAL. */
  lemma CriticalMemoryScenario()
    ensures Assembled(ScenarioInfo, ScenarioIncluded, [], ScenarioConfigs) == Ok(ScenarioChecks)
    ensures Resolvable(ScenarioInfo, ScenarioChecks)
    ensures Processed(Resolved(ScenarioInfo, ScenarioChecks)).Ok?
    ensures Processed(Resolved(ScenarioInfo, ScenarioChecks)).value.code == ERROR
  {
    ScenarioAssembled();
    ScenarioResolved();
    var ratio := ScenarioRatio.(value := Some(IntV(0)));
    var memory := ScenarioMemory.(value := Some(IntV(100)));
    assert Resolved(ScenarioInfo, ScenarioChecks) == map[ratio.key := ratio, memory.key := memory];
    assert LexLess(ratio.key, memory.key);
    QuietThenErrorReportsCritical(ratio, memory);
  }

  /** Without `--include` every snapshot name gets a check, so a snapshot
      item holding a per-database dictionary that is not excluded makes
      the run raise TypeError in `int()`, whatever the configuration. */
  lemma DefaultRunWithDictRaises(info: Snapshot, k: string, d: map<string, int>,
                                 excluded: seq<string>, configs: seq<string>)
    requires Lookup(info, k) == Some(Dict(d)) && k !in excluded
    ensures Assembled(info, [], excluded, configs).Ok? ==>
      var m := Assembled(info, [], excluded, configs).value;
      k in m && ResolveOne(info, m[k]) == Fail(TypeError) && !Resolvable(info, m)
  {
    var a := Assembled(info, [], excluded, configs);
    if a.Ok? {
      AssembledChecks(info, [], excluded, configs);
      var i :| 0 <= i < |info| && info[i] == (k, Dict(d));
      assert Keys(info)[i] == k;
      assert k in ListChecks(info);
      assert k in BaseNames(info, []);
      var m := a.value;
      assert k in m && m[k].key == k;
      assert GetValue(info, k) == Ok(Some(Dict(d)));
    }
  }

  /** A server reporting a `db0` keyspace: the default run assembles, and
      then resolving `db0` raises TypeError. */
  lemma DefaultRunWithKeyspaceRaises()
    ensures var info := [("db0", Dict(map["keys" := 3])), ("keyspace_hits", Int(1)), ("keyspace_misses", Int(1))];
      Assembled(info, [], [], []).Ok?
      && "db0" in Assembled(info, [], [], []).value
      && ResolveOne(info, Assembled(info, [], [], []).value["db0"]) == Fail(TypeError)
      && !Resolvable(info, Assembled(info, [], [], []).value)
  {
    var info := [("db0", Dict(map["keys" := 3])), ("keyspace_hits", Int(1)), ("keyspace_misses", Int(1))];
    assert Lookup(info, "db0") == Some(Dict(map["keys" := 3]));
    DefaultRunWithDictRaises(info, "db0", map["keys" := 3], [], []);
  }

  /** Without `--include`, the listed names are offered: every snapshot key
      and `hit_ratio`. */
  lemma ListedWhenNothingIncluded(info: Snapshot, k: string)
    requires k in Keys(info) || k == HitRatioName
    ensures k in BaseNames(info, [])
  {
  }
}
