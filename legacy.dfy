/** The first-generation probe (check_redis.py): each requested command
    yields one value, compared against the warning and critical limit
    strings given at the same position, and the Nagios report carries the
    worst state over all commands. */
module LegacyProbe {
  import opened Base
  import opened Text
  import opened Info
  import opened Checks
  import Reporter

  // ---------------------------------------------------------------------
  // States

  datatype State = OK | WARNING | CRITICAL | UNKNOWN

  /** `nagios_output_state`: the exit code of each state. */
  function Code(s: State): int
  {
    match s
    case OK => 0
    case WARNING => 1
    case CRITICAL => 2
    case UNKNOWN => 3
  }

  /** The state word that heads the report. */
  function Word(s: State): string
  {
    match s
    case OK => "OK"
    case WARNING => "WARNING"
    case CRITICAL => "CRITICAL"
    case UNKNOWN => "UNKNOWN"
  }

  /** Distinct states have distinct codes, so the code names the state. */
  lemma CodeNamesState(a: State, b: State)
    ensures Code(a) == Code(b) <==> a == b
  {
  }

  // ---------------------------------------------------------------------
  // Limits

  /** One limit string of `_check_limits` against a value: absent or empty
      never fires; a leading `<` fires below the number left once every
      `<` is removed; anything else fires above the number left once every
      `>` is removed; a left-over that is not a number raises ValueError. */
  function LimitFires(value: real, limit: Option<string>): Result<bool>
  {
    if limit.None? || limit.value == "" then Ok(false)
    else
      var l := limit.value;
      if l[0] == '<' then
        match ParseReal(RemoveAll(l, '<'))
        case None => Fail(ValueError)
        case Some(x) => Ok(value < x)
      else
        match ParseReal(RemoveAll(l, '>'))
        case None => Fail(ValueError)
        case Some(x) => Ok(value > x)
  }

  /** The state `_check_limits` settles on: the warning limit is tested
      first and the critical limit second, so a firing critical limit wins. */
  function LimitState(value: real, warning: Option<string>, critical: Option<string>): Result<State>
  {
    match LimitFires(value, warning)
    case Fail(e) => Fail(e)
    case Ok(w) =>
      match LimitFires(value, critical)
      case Fail(e) => Fail(e)
      case Ok(c) => Ok(if c then CRITICAL else if w then WARNING else OK)
  }

  /** `Redis._check_limits`. */
  method CheckLimits(value: real, warning: Option<string>, critical: Option<string>)
    returns (r: Result<State>)
    ensures r == LimitState(value, warning, critical)
  {
    var status := OK;
    if warning.Some? && warning.value != "" {
      var w := warning.value;
      if w[0] == '<' {
        var x := ParseReal(RemoveAll(w, '<'));
        if x.None? {
          return Fail(ValueError);
        }
        if value < x.value {
          status := WARNING;
        }
      } else {
        var x := ParseReal(RemoveAll(w, '>'));
        if x.None? {
          return Fail(ValueError);
        }
        if value > x.value {
          status := WARNING;
        }
      }
    }
    if critical.Some? && critical.value != "" {
      var c := critical.value;
      if c[0] == '<' {
        var x := ParseReal(RemoveAll(c, '<'));
        if x.None? {
          return Fail(ValueError);
        }
        if value < x.value {
          status := CRITICAL;
        }
      } else {
        var x := ParseReal(RemoveAll(c, '>'));
        if x.None? {
          return Fail(ValueError);
        }
        if value > x.value {
          status := CRITICAL;
        }
      }
    }
    r := Ok(status);
  }

  /** The limits decide the state: CRITICAL exactly when the critical
      limit fires, WARNING exactly when the warning limit fires and the
      critical one does not, OK when neither fires, never UNKNOWN; the only
      error is ValueError, raised exactly when a limit does not read. */
  lemma LimitStateRule(value: real, warning: Option<string>, critical: Option<string>)
    ensures LimitState(value, warning, critical).Fail? <==>
      LimitFires(value, warning).Fail? || LimitFires(value, critical).Fail?
    ensures LimitState(value, warning, critical).Fail? ==>
      LimitState(value, warning, critical).error == ValueError
    ensures LimitState(value, warning, critical) == Ok(CRITICAL) <==>
      LimitFires(value, warning).Ok? && LimitFires(value, critical) == Ok(true)
    ensures LimitState(value, warning, critical) == Ok(WARNING) <==>
      LimitFires(value, warning) == Ok(true) && LimitFires(value, critical) == Ok(false)
    ensures LimitState(value, warning, critical) == Ok(OK) <==>
      LimitFires(value, warning) == Ok(false) && LimitFires(value, critical) == Ok(false)
    ensures LimitState(value, warning, critical) != Ok(UNKNOWN)
  {
  }

  /** An absent limit and an empty one never fire. */
  lemma AbsentLimitNeverFires(value: real)
    ensures LimitFires(value, None) == Ok(false) && LimitFires(value, Some("")) == Ok(false)
    ensures LimitState(value, None, None) == Ok(OK)
  {
  }

  /** Removing `<` or `>` from sign-free text, with or without that sign
      in front, leaves the text. */
  lemma SignRemoved(t: string, c: char)
    requires '<' !in t && '>' !in t
    requires c == '<' || c == '>'
    ensures RemoveAll(t, c) == t
    ensures RemoveAll([c] + t, c) == t
  {
    RemoveAllAbsent(t, c);
    RemoveAllConcat([c], t, c);
    RemoveAllSingle(c, c);
  }

  /** A limit that does not start with `<` fires above what it reads as
      once `>` is removed, one that does fires below what it reads as once
      `<` is removed. */
  lemma FiresAbove(value: real, l: string, x: real)
    requires l != "" && l[0] != '<' && ParseReal(RemoveAll(l, '>')) == Some(x)
    ensures LimitFires(value, Some(l)) == Ok(value > x)
  {
  }

  lemma FiresBelow(value: real, l: string, x: real)
    requires l != "" && l[0] == '<' && ParseReal(RemoveAll(l, '<')) == Some(x)
    ensures LimitFires(value, Some(l)) == Ok(value < x)
  {
  }

  /** For a limit written as a sign-free number, with `>` or with no sign
      it fires strictly above that number, and with `<` strictly below. */
  lemma NumericLimit(value: real, t: string, x: real)
    requires '<' !in t && '>' !in t && ParseReal(t) == Some(x)
    ensures LimitFires(value, Some(t)) == Ok(value > x)
    ensures LimitFires(value, Some(">" + t)) == Ok(value > x)
    ensures LimitFires(value, Some("<" + t)) == Ok(value < x)
  {
    ParseRealNonEmpty(t);
    assert t[0] in t;
    SignRemoved(t, '>');
    SignRemoved(t, '<');
    var above, below := ">" + t, "<" + t;
    assert above == ['>'] + t && above[0] == '>';
    assert below == ['<'] + t && below[0] == '<';
    FiresAbove(value, t, x);
    FiresAbove(value, above, x);
    FiresBelow(value, below, x);
  }

  /** A value equal to the limit never fires, whichever way it points. */
  lemma EqualityNeverFires(t: string, x: real)
    requires '<' !in t && '>' !in t && ParseReal(t) == Some(x)
    ensures LimitFires(x, Some(t)) == Ok(false)
    ensures LimitFires(x, Some(">" + t)) == Ok(false)
    ensures LimitFires(x, Some("<" + t)) == Ok(false)
  {
    NumericLimit(x, t, x);
  }

  /** A hit-ratio limit `<0.9` fires for 0.8 and not for 0.95; written
      `0.9` it fires for 0.95. */
  lemma DecimalLimits()
    ensures LimitFires(0.8, Some("<0.9")) == Ok(true)
    ensures LimitFires(0.95, Some("<0.9")) == Ok(false)
    ensures LimitFires(0.95, Some("0.9")) == Ok(true)
  {
    ReadsPointNine();
    NumericLimit(0.8, "0.9", 0.9);
    NumericLimit(0.95, "0.9", 0.9);
  }

  // ---------------------------------------------------------------------
  // Performance data

  /** A limit as the performance data shows it: every `<` and `>` removed,
      absent as empty text. */
  function PerfLimit(limit: Option<string>): (s: string)
    ensures '<' !in s && '>' !in s
    ensures forall x :: x in s ==> limit.Some? && x in limit.value
  {
    if limit.None? then "" else RemoveAll(RemoveAll(limit.value, '<'), '>')
  }

  /** The shown limit is the given limit with its signs dropped: sign-free
      text is shown as given, with `<` or `>` in front it is shown without,
      and the limit is stripped piece by piece. */
  lemma PerfLimitStripsSign(t: string)
    requires '<' !in t && '>' !in t
    ensures PerfLimit(Some(t)) == t
    ensures PerfLimit(Some(">" + t)) == t
    ensures PerfLimit(Some("<" + t)) == t
    ensures forall u :: PerfLimit(Some(u + t)) == PerfLimit(Some(u)) + t
  {
    SignRemoved(t, '<');
    SignRemoved(t, '>');
    assert ">" == ['>'] && "<" == ['<'];
    RemoveAllConcat(">", t, '<');
    RemoveAllSingle('>', '<');
    forall u
      ensures PerfLimit(Some(u + t)) == PerfLimit(Some(u)) + t
    {
      RemoveAllConcat(u, t, '<');
      RemoveAllConcat(RemoveAll(u, '<'), t, '>');
    }
  }

  /** `_set_performance_data`: `command=value;warning;critical;;`. */
  function PerfData(command: string, value: Value, warning: Option<string>, critical: Option<string>): string
  {
    command + "=" + Reporter.ValueText(value) + ";" + PerfLimit(warning) + ";"
    + PerfLimit(critical) + ";;"
  }

  /** The fields of a performance entry read back by position: label and
      value, the two limits without their signs, and an empty minimum and
      maximum. */
  lemma PerfDataFields(command: string, value: Value, warning: Option<string>, critical: Option<string>)
    requires ';' !in command && !value.StrV?
    requires warning.Some? ==> ';' !in warning.value
    requires critical.Some? ==> ';' !in critical.value
    ensures Split(PerfData(command, value, warning, critical), ';') ==
      [command + "=" + Reporter.ValueText(value), PerfLimit(warning), PerfLimit(critical), "", ""]
  {
    var shown := Reporter.ValueText(value);
    NumeralHasNo(shown, ';');
    var head := command + "=" + shown;
    assert ';' !in head;
    var w, c := PerfLimit(warning), PerfLimit(critical);
    assert PerfData(command, value, warning, critical) == head + ";" + w + ";" + c + ";" + "" + ";" + "";
    SplitFive(head, w, c, "", "", ';');
  }

  // ---------------------------------------------------------------------
  // The probe and its commands

  datatype Probe = Probe(
    info: Snapshot,
    performanceData: bool,
    commands: seq<string>,
    warningList: Option<seq<string>>,
    criticalList: Option<seq<string>>)

  /** A `--warning` or `--critical` argument as the constructor keeps it:
      split on `,` when given and non-empty. An empty argument stays a
      string whose every index raises, which reads as no list. */
  function LimitList(arg: Option<string>): Option<seq<string>>
  {
    if arg.Some? && arg.value != "" then Some(Split(arg.value, ',')) else None
  }

  /** `Redis.__init__` once the snapshot is fetched. */
  function NewProbe(info: Snapshot, performanceData: bool, commands: seq<string>,
                    warning: Option<string>, critical: Option<string>): (p: Probe)
    ensures p.info == info && p.performanceData == performanceData && p.commands == commands
    ensures p.warningList.Some? <==> warning.Some? && warning.value != ""
    ensures p.warningList.Some? ==> Join(p.warningList.value, ",") == warning.value
    ensures p.criticalList.Some? <==> critical.Some? && critical.value != ""
    ensures p.criticalList.Some? ==> Join(p.criticalList.value, ",") == critical.value
  {
    JoinSplit(if warning.Some? then warning.value else "", ',');
    JoinSplit(if critical.Some? then critical.value else "", ',');
    Probe(info, performanceData, commands, LimitList(warning), LimitList(critical))
  }

  /** `self.warning_list[i]` with every failure caught: None past the end
      of the list or without a list. */
  function LimitAt(list: Option<seq<string>>, i: nat): Option<string>
  {
    if list.Some? && i < |list.value| then Some(list.value[i]) else None
  }

  /** The i-th command is paired with the i-th entry of each list: for
      `a,b` the first gets `a`, the second `b`, and any later one none. */
  lemma LimitPairing(a: string, b: string, i: nat)
    requires ',' !in a && ',' !in b
    ensures LimitAt(LimitList(Some(a + "," + b)), 0) == Some(a)
    ensures LimitAt(LimitList(Some(a + "," + b)), 1) == Some(b)
    ensures i >= 2 ==> LimitAt(LimitList(Some(a + "," + b)), i) == None
    ensures LimitAt(LimitList(None), i) == None && LimitAt(LimitList(Some("")), i) == None
  {
    SplitAtSeparator(a, b, ',');
    SplitNoSeparator(b, ',');
    assert a + "," + b == a + [','] + b;
    assert |a + "," + b| > 0;
  }

  const HitRatioCommand := "hit_ratio"
  const TotalKeysCommand := "total_keys"
  const LatencyCommand := "latency"

  predicate IsDerived(command: string)
  {
    command == HitRatioCommand || command == TotalKeysCommand || command == LatencyCommand
  }

  /** `_hit_ratio`: hits over hits plus misses, with no guard for zero. */
  function HitRatio(info: Snapshot): Result<Value>
  {
    match Counters(info)
    case Fail(e) => Fail(e)
    case Ok((hits, misses)) =>
      if hits + misses == 0.0 then Fail(ZeroDivisionError) else Ok(RealV(hits / (hits + misses)))
  }

  /** `_total_keys`: the key count of database 0 alone. */
  function TotalKeys(info: Snapshot): Result<Value>
  {
    match Lookup(info, "db0")
    case None => Fail(KeyError)
    case Some(Dict(d)) => if "keys" in d then Ok(IntV(d["keys"])) else Fail(KeyError)
    case Some(_) => Fail(TypeError)
  }

  /** A command whose value the limits can compare with a number: a
      derived one, or one the snapshot lacks or holds as a number. */
  predicate NumericCommand(info: Snapshot, command: string)
  {
    IsDerived(command) || Lookup(info, command).None?
    || Lookup(info, command).value.Int? || Lookup(info, command).value.Real?
  }

  /** The value of one command: `hit_ratio`, `total_keys` and `latency`
      through their methods (the last does not exist: AttributeError),
      every other name looked up in the snapshot (KeyError when absent). */
  function CommandValue(info: Snapshot, command: string): (r: Result<Value>)
    requires NumericCommand(info, command)
    ensures r.Ok? ==> !r.value.StrV?
  {
    if command == HitRatioCommand then HitRatio(info)
    else if command == TotalKeysCommand then TotalKeys(info)
    else if command == LatencyCommand then Fail(AttributeError)
    else
      match Lookup(info, command)
      case None => Fail(KeyError)
      case Some(Int(i)) => Ok(IntV(i))
      case Some(Real(x)) => Ok(RealV(x))
  }

  /** An item in front of the snapshot is invisible to the lookup of any
      other name. */
  lemma LookupPast(info: Snapshot, item: (string, RawValue), key: string)
    requires item.0 != key
    ensures Lookup([item] + info, key) == Lookup(info, key)
  {
    assert ([item] + info)[1..] == info;
  }

  lemma HitRatioPast(info: Snapshot, v: RawValue)
    ensures HitRatio([(HitRatioCommand, v)] + info) == HitRatio(info)
  {
    CountersPast(info, v);
  }

  lemma CountersPast(info: Snapshot, v: RawValue)
    ensures Counters([(HitRatioCommand, v)] + info) == Counters(info)
  {
    LookupPast(info, (HitRatioCommand, v), "keyspace_hits");
    LookupPast(info, (HitRatioCommand, v), "keyspace_misses");
  }

  lemma TotalKeysPast(info: Snapshot, v: RawValue)
    ensures TotalKeys([(TotalKeysCommand, v)] + info) == TotalKeys(info)
  {
    LookupPast(info, (TotalKeysCommand, v), "db0");
  }

  /** `hit_ratio` and `total_keys` are computed, whatever the snapshot
      holds under those names. */
  lemma DerivedIgnoreSnapshotKey(info: Snapshot, v: RawValue)
    ensures CommandValue([(HitRatioCommand, v)] + info, HitRatioCommand) == CommandValue(info, HitRatioCommand)
    ensures CommandValue([(TotalKeysCommand, v)] + info, TotalKeysCommand) == CommandValue(info, TotalKeysCommand)
  {
    HitRatioPast(info, v);
    TotalKeysPast(info, v);
  }

  /** With counters the ratio is hits over all lookups; with no lookups at
      all it divides by zero. */
  lemma HitRatioOfCounters(info: Snapshot, hits: int, misses: int)
    requires Lookup(info, "keyspace_hits") == Some(Int(hits))
    requires Lookup(info, "keyspace_misses") == Some(Int(misses))
    ensures hits + misses != 0 ==>
      CommandValue(info, HitRatioCommand) == Ok(RealV(hits as real / (hits + misses) as real))
    ensures hits + misses == 0 ==> CommandValue(info, HitRatioCommand) == Fail(ZeroDivisionError)
  {
  }

  /** Every command the snapshot does not carry raises KeyError, unless it
      is derived; `latency` always raises AttributeError. */
  lemma CommandErrors(info: Snapshot, command: string)
    ensures !IsDerived(command) && Lookup(info, command).None? ==>
      CommandValue(info, command) == Fail(KeyError)
    ensures CommandValue(info, LatencyCommand) == Fail(AttributeError)
    ensures Lookup(info, "db0").None? ==> CommandValue(info, TotalKeysCommand) == Fail(KeyError)
  {
  }

  /** `total_keys` reads database 0: its `keys` count when it is a
      dictionary holding one, KeyError when it is absent or has no `keys`,
      TypeError when it is not a dictionary. */
  lemma TotalKeysOfDb0(info: Snapshot)
    ensures Lookup(info, "db0").Some? && Lookup(info, "db0").value.Dict? && "keys" in Lookup(info, "db0").value.d ==>
      CommandValue(info, TotalKeysCommand) == Ok(IntV(Lookup(info, "db0").value.d["keys"]))
    ensures Lookup(info, "db0").Some? && Lookup(info, "db0").value.Dict? && "keys" !in Lookup(info, "db0").value.d ==>
      CommandValue(info, TotalKeysCommand) == Fail(KeyError)
    ensures Lookup(info, "db0").Some? && !Lookup(info, "db0").value.Dict? ==>
      CommandValue(info, TotalKeysCommand) == Fail(TypeError)
    ensures Lookup(info, "db0").None? ==> CommandValue(info, TotalKeysCommand) == Fail(KeyError)
  {
  }

  predicate NumericCommands(p: Probe)
  {
    forall i :: 0 <= i < |p.commands| ==> NumericCommand(p.info, p.commands[i])
  }

  function AsReal(v: Value): real
    requires !v.StrV?
  {
    match v
    case IntV(i) => i as real
    case RealV(x) => x
  }

  // ---------------------------------------------------------------------
  // perform_check

  /** What `perform_check` records for one command. */
  datatype Entry = Entry(value: Value, perfData: string, checkState: State)

  /** An entry as `perform_check` can record it: a number and a state
      the limits can yield. */
  predicate Sound(e: Entry)
  {
    !e.value.StrV? && e.checkState != UNKNOWN
  }

  /** The entry of the i-th command, paired with the i-th limits. */
  function EntryAt(p: Probe, i: nat): (r: Result<Entry>)
    requires i < |p.commands| && NumericCommands(p)
    ensures r.Ok? ==> Sound(r.value)
  {
    var command := p.commands[i];
    var warning := LimitAt(p.warningList, i);
    var critical := LimitAt(p.criticalList, i);
    match CommandValue(p.info, command)
    case Fail(e) => Fail(e)
    case Ok(v) =>
      match LimitState(AsReal(v), warning, critical)
      case Fail(e) => Fail(e)
      case Ok(s) => Ok(Entry(v, PerfData(command, v, warning, critical), s))
  }

  /** The result each of the first `n` commands gives, in command order. */
  function EntryResults(p: Probe, n: nat): (rs: seq<Result<Entry>>)
    requires n <= |p.commands| && NumericCommands(p)
    ensures |rs| == n
  {
    if n == 0 then [] else EntryResults(p, n - 1) + [EntryAt(p, n - 1)]
  }

  lemma {:induction false} EntryResultAt(p: Probe, n: nat, i: nat)
    requires i < n <= |p.commands| && NumericCommands(p)
    ensures EntryResults(p, n)[i] == EntryAt(p, i)
  {
    if i < n - 1 {
      EntryResultAt(p, n - 1, i);
    }
  }

  lemma EntryResultsAll(p: Probe)
    requires NumericCommands(p)
    ensures forall i :: 0 <= i < |p.commands| ==> EntryResults(p, |p.commands|)[i] == EntryAt(p, i)
  {
    forall i | 0 <= i < |p.commands|
      ensures EntryResults(p, |p.commands|)[i] == EntryAt(p, i)
    {
      EntryResultAt(p, |p.commands|, i);
    }
  }

  /** The `data` dictionary after the first `n` commands, given the result
      of each: the first error, or every command seen mapped to an entry
      one of its positions gave. */
  function Collect(commands: seq<string>, results: seq<Result<Entry>>, n: nat): (r: Result<map<string, Entry>>)
    requires n <= |commands| == |results|
    ensures r.Ok? ==> r.value.Keys == set i | 0 <= i < n :: commands[i]
  {
    if n == 0 then Ok(map[])
    else
      match Collect(commands, results, n - 1)
      case Fail(e) => Fail(e)
      case Ok(data) =>
        match results[n - 1]
        case Fail(e) => Fail(e)
        case Ok(entry) =>
          assert (set i | 0 <= i < n :: commands[i])
              == (set i | 0 <= i < n - 1 :: commands[i]) + {commands[n - 1]};
          Ok(data[commands[n - 1] := entry])
  }

  /** Every collected entry is one that some position gave. */
  lemma {:induction false} CollectFrom(commands: seq<string>, results: seq<Result<Entry>>, n: nat)
    requires n <= |commands| == |results|
    ensures Collect(commands, results, n).Ok? ==>
      forall c :: c in Collect(commands, results, n).value ==>
        exists i :: 0 <= i < n && results[i] == Ok(Collect(commands, results, n).value[c])
  {
    if n > 0 {
      CollectFrom(commands, results, n - 1);
    }
  }

  /** Collecting raises exactly when some command's result is an error,
      with the error of the first such command. */
  lemma {:induction false} CollectFail(commands: seq<string>, results: seq<Result<Entry>>, n: nat)
    requires n <= |commands| == |results|
    ensures (exists i :: 0 <= i < n && results[i].Fail?) ==> Collect(commands, results, n).Fail?
    ensures Collect(commands, results, n).Fail? ==>
      exists i :: 0 <= i < n && results[i] == Fail(Collect(commands, results, n).error)
                  && forall j :: 0 <= j < i ==> results[j].Ok?
  {
    if n > 0 {
      CollectFail(commands, results, n - 1);
    }
  }

  /** Otherwise each command holds the entry of its last position. */
  lemma {:induction false} CollectLastWins(commands: seq<string>, results: seq<Result<Entry>>, n: nat, i: nat)
    requires n <= |commands| == |results|
    requires Collect(commands, results, n).Ok?
    requires i < n && forall j :: i < j < n ==> commands[j] != commands[i]
    ensures results[i].Ok? && Collect(commands, results, n).value[commands[i]] == results[i].value
  {
    if i < n - 1 {
      CollectLastWins(commands, results, n - 1, i);
    }
  }

  /** Once an error is met, collecting stops with it. */
  lemma {:induction false} CollectStopsAt(commands: seq<string>, results: seq<Result<Entry>>, i: nat, n: nat)
    requires i < n <= |commands| == |results|
    requires Collect(commands, results, i).Ok? && results[i].Fail?
    ensures Collect(commands, results, n) == Fail(results[i].error)
  {
    if n > i + 1 {
      CollectStopsAt(commands, results, i, n - 1);
    }
  }

  /** The `data` dictionary of a whole run. */
  function Entries(p: Probe): Result<map<string, Entry>>
    requires NumericCommands(p)
  {
    Collect(p.commands, EntryResults(p, |p.commands|), |p.commands|)
  }

  /** A completed run holds a sound entry for every command. */
  predicate Recorded(p: Probe, data: map<string, Entry>)
  {
    Covers(p, data) && forall c :: c in data ==> Sound(data[c])
  }

  lemma EntriesRecorded(p: Probe)
    requires NumericCommands(p)
    ensures Entries(p).Ok? ==> Recorded(p, Entries(p).value)
  {
    var results := EntryResults(p, |p.commands|);
    EntryResultsAll(p);
    CollectFrom(p.commands, results, |p.commands|);
    if Entries(p).Ok? {
      var data := Entries(p).value;
      assert forall i :: 0 <= i < |p.commands| ==> p.commands[i] in data;
      forall c | c in data
        ensures Sound(data[c])
      {
        var i :| 0 <= i < |p.commands| && results[i] == Ok(data[c]);
        assert EntryAt(p, i) == Ok(data[c]);
      }
    }
  }

  /** A run raises exactly when some command does, with the first such
      command's error. */
  lemma EntriesFail(p: Probe)
    requires NumericCommands(p)
    ensures Entries(p).Fail? <==> exists i :: 0 <= i < |p.commands| && EntryAt(p, i).Fail?
    ensures Entries(p).Fail? ==>
      exists i :: 0 <= i < |p.commands| && EntryAt(p, i) == Fail(Entries(p).error)
                  && forall j :: 0 <= j < i ==> EntryAt(p, j).Ok?
  {
    var results := EntryResults(p, |p.commands|);
    EntryResultsAll(p);
    CollectFail(p.commands, results, |p.commands|);
  }

  /** Otherwise each command holds the entry of its last position, paired
      with that position's limits. */
  lemma EntriesLastWins(p: Probe, i: nat)
    requires NumericCommands(p) && Entries(p).Ok?
    requires i < |p.commands| && forall j :: i < j < |p.commands| ==> p.commands[j] != p.commands[i]
    ensures EntryAt(p, i).Ok? && Entries(p).value[p.commands[i]] == EntryAt(p, i).value
  {
    var results := EntryResults(p, |p.commands|);
    EntryResultsAll(p);
    CollectLastWins(p.commands, results, |p.commands|, i);
  }

  /** Lines 118-146: the value, performance entry and state of the i-th
      command, which is the i-th result of the run (`EntryAt(p, i)`, by
      `EntryResultAt`). */
  method CommandEntry(p: Probe, i: nat) returns (r: Result<Entry>)
    requires i < |p.commands| && NumericCommands(p)
    ensures r == EntryResults(p, |p.commands|)[i]
  {
    EntryResultAt(p, |p.commands|, i);
    var command := p.commands[i];
    var warning := LimitAt(p.warningList, i);
    var critical := LimitAt(p.criticalList, i);
    var value := CommandValue(p.info, command);
    if value.Fail? {
      return Fail(value.error);
    }
    var perfData := PerfData(command, value.value, warning, critical);
    var state := CheckLimits(AsReal(value.value), warning, critical);
    if state.Fail? {
      return Fail(state.error);
    }
    r := Ok(Entry(value.value, perfData, state.value));
  }

  /** Lines 116-147: the `data` dictionary, command by command. */
  method CollectEntries(p: Probe) returns (r: Result<map<string, Entry>>)
    requires NumericCommands(p)
    ensures r == Entries(p)
  {
    ghost var results := EntryResults(p, |p.commands|);
    var data: map<string, Entry> := map[];
    for i := 0 to |p.commands|
      invariant Collect(p.commands, results, i) == Ok(data)
    {
      var entry := CommandEntry(p, i);
      assert entry == results[i];
      if entry.Fail? {
        CollectStopsAt(p.commands, results, i, |p.commands|);
        return Fail(entry.error);
      }
      data := data[p.commands[i] := entry.value];
    }
    r := Ok(data);
  }

  /** Lines 115-150: every command in turn, then the report. */
  method PerformCheck(p: Probe) returns (r: Result<Reporter.Report>)
    requires NumericCommands(p)
    ensures r == Performed(p)
  {
    var data := CollectEntries(p);
    if data.Fail? {
      return Fail(data.error);
    }
    EntriesRecorded(p);
    var report := ExitWithNagiosFormat(p, data.value);
    r := Ok(report);
  }

  // ---------------------------------------------------------------------
  // _exit_with_nagios_format

  /** The more severe of two states, the first on a tie. */
  function Worse(a: State, b: State): State
  {
    if Code(b) > Code(a) then b else a
  }

  /** The state the report loop settles on. */
  function Worst(states: seq<State>): State
  {
    if states == [] then OK else Worse(Worst(states[..|states| - 1]), states[|states| - 1])
  }

  /** The overall state is as severe as every command's state, and is OK or
      one of them. */
  lemma {:induction false} WorstIsMaximum(states: seq<State>)
    ensures forall i :: 0 <= i < |states| ==> Code(states[i]) <= Code(Worst(states))
    ensures Worst(states) == OK || Worst(states) in states
  {
    if states != [] {
      var init := states[..|states| - 1];
      WorstIsMaximum(init);
      assert forall i :: 0 <= i < |init| ==> states[i] == init[i];
    }
  }

  /** The overall state depends on which states occur, not on their order
      or on how often they occur. */
  lemma WorstOrderIndependent(a: seq<State>, b: seq<State>)
    requires forall s :: s in a <==> s in b
    ensures Worst(a) == Worst(b)
  {
    WorstIsMaximum(a);
    WorstIsMaximum(b);
    CodeNamesState(Worst(a), Worst(b));
  }

  /** Without UNKNOWN among the commands the report is never UNKNOWN. */
  lemma WorstNeverUnknown(states: seq<State>)
    requires forall i :: 0 <= i < |states| ==> states[i] != UNKNOWN
    ensures Worst(states) != UNKNOWN
  {
    WorstIsMaximum(states);
  }

  predicate Covers(p: Probe, data: map<string, Entry>)
  {
    forall i :: 0 <= i < |p.commands| ==> p.commands[i] in data
  }

  function StatesOf(p: Probe, data: map<string, Entry>, n: nat): (s: seq<State>)
    requires n <= |p.commands| && Covers(p, data)
    ensures |s| == n && forall i :: 0 <= i < n ==> s[i] == data[p.commands[i]].checkState
  {
    seq(n, i requires 0 <= i < n => data[p.commands[i]].checkState)
  }

  /** The text `%s` gives each command's recorded value. */
  function Shown(p: Probe, data: map<string, Entry>): (s: seq<string>)
    requires Covers(p, data)
    ensures |s| == |p.commands|
    ensures forall i :: 0 <= i < |p.commands| ==> s[i] == Reporter.ValueText(data[p.commands[i]].value)
  {
    seq(|p.commands|, i requires 0 <= i < |p.commands| => Reporter.ValueText(data[p.commands[i]].value))
  }

  /** `name: text, ` for each of the first `n` names and texts. */
  function Listing(names: seq<string>, texts: seq<string>, n: nat): string
    requires n <= |names| && n <= |texts|
  {
    if n == 0 then "" else Listing(names, texts, n - 1) + names[n - 1] + ": " + texts[n - 1] + ", "
  }

  /** `command: value, ` for each of the first `n` commands. */
  function ValueLines(p: Probe, data: map<string, Entry>, n: nat): string
    requires n <= |p.commands| && Covers(p, data)
  {
    Listing(p.commands, Shown(p, data), n)
  }

  /** Each of the first `n` commands' performance entries followed by a space. */
  function PerfLines(p: Probe, data: map<string, Entry>, n: nat): string
    requires n <= |p.commands| && Covers(p, data)
  {
    if n == 0 then "" else PerfLines(p, data, n - 1) + data[p.commands[n - 1]].perfData + " "
  }

  /** The report: the overall state word, a newline, the value list, and
      the performance entries after `|` only when they are enabled; the code
      is the overall state's. */
  function NagiosFormat(p: Probe, data: map<string, Entry>): Reporter.Report
    requires Covers(p, data)
  {
    var state := Worst(StatesOf(p, data, |p.commands|));
    Reporter.Report(
      Code(state),
      Word(state) + "\n" + ValueLines(p, data, |p.commands|)
      + (if p.performanceData then "|" + PerfLines(p, data, |p.commands|) else ""))
  }

  /** What one more command adds to the state, the value list and the
      performance entries. */
  lemma ReportStep(p: Probe, data: map<string, Entry>, i: nat)
    requires i < |p.commands| && Covers(p, data)
    ensures Worst(StatesOf(p, data, i + 1))
            == Worse(Worst(StatesOf(p, data, i)), data[p.commands[i]].checkState)
    ensures ValueLines(p, data, i + 1)
            == ValueLines(p, data, i) + p.commands[i] + ": " + Reporter.ValueText(data[p.commands[i]].value) + ", "
    ensures PerfLines(p, data, i + 1) == PerfLines(p, data, i) + data[p.commands[i]].perfData + " "
  {
    assert StatesOf(p, data, i + 1)[..i] == StatesOf(p, data, i);
  }

  /** Lines 80-102. */
  method ExitWithNagiosFormat(p: Probe, data: map<string, Entry>) returns (report: Reporter.Report)
    requires Covers(p, data)
    ensures report == NagiosFormat(p, data)
  {
    var outputState := OK;
    var output := "";
    var outputPerfData := "";
    for i := 0 to |p.commands|
      invariant outputState == Worst(StatesOf(p, data, i))
      invariant output == ValueLines(p, data, i)
      invariant outputPerfData == PerfLines(p, data, i)
    {
      ReportStep(p, data, i);
      var command := p.commands[i];
      var commandData := data[command];
      if Code(commandData.checkState) > Code(outputState) {
        outputState := commandData.checkState;
      }
      output := output + command + ": " + Reporter.ValueText(commandData.value) + ", ";
      outputPerfData := outputPerfData + commandData.perfData + " ";
    }
    output := Word(outputState) + "\n" + output;
    if p.performanceData {
      output := output + "|" + outputPerfData;
    }
    report := Reporter.Report(Code(outputState), output);
  }

  /** The whole run: the entries, then the report, or the first error. */
  function Performed(p: Probe): Result<Reporter.Report>
    requires NumericCommands(p)
  {
    EntriesRecorded(p);
    match Entries(p)
    case Fail(e) => Fail(e)
    case Ok(data) => Ok(NagiosFormat(p, data))
  }

  /** The report's code is that of the most severe state among the
      commands, OK for no commands, never UNKNOWN. */
  lemma NagiosCode(p: Probe, data: map<string, Entry>)
    requires Recorded(p, data)
    ensures 0 <= NagiosFormat(p, data).code <= 2
    ensures forall i :: 0 <= i < |p.commands| ==> Code(data[p.commands[i]].checkState) <= NagiosFormat(p, data).code
    ensures NagiosFormat(p, data).code == 0
            || exists i :: 0 <= i < |p.commands| && Code(data[p.commands[i]].checkState) == NagiosFormat(p, data).code
  {
    var states := StatesOf(p, data, |p.commands|);
    WorstIsMaximum(states);
    WorstNeverUnknown(states);
  }

  lemma AbsentFromBoth(a: string, b: string, c: char)
    requires c !in a && c !in b
    ensures c !in a + b
  {
  }

  /** A listing holds no `|` when no name and no text does. */
  lemma {:induction false} ListingNoBar(names: seq<string>, texts: seq<string>, n: nat)
    requires n <= |names| && n <= |texts|
    requires forall i :: 0 <= i < n ==> '|' !in names[i] && '|' !in texts[i]
    ensures '|' !in Listing(names, texts, n)
  {
    if n > 0 {
      ListingNoBar(names, texts, n - 1);
      var prefix, name, text := Listing(names, texts, n - 1), names[n - 1], texts[n - 1];
      assert '|' !in name && '|' !in text;
      assert '|' !in ": " && '|' !in ", ";
      AbsentFromBoth(prefix, name, '|');
      AbsentFromBoth(prefix + name, ": ", '|');
      AbsentFromBoth(prefix + name + ": ", text, '|');
      AbsentFromBoth(prefix + name + ": " + text, ", ", '|');
    }
  }

  /** The value list of a completed run holds no `|`, as long as no
      command name holds one: every value is a rendered number. */
  lemma ValueLinesNoBar(p: Probe, data: map<string, Entry>)
    requires Recorded(p, data)
    requires forall i :: 0 <= i < |p.commands| ==> '|' !in p.commands[i]
    ensures '|' !in ValueLines(p, data, |p.commands|)
  {
    var texts := Shown(p, data);
    forall i | 0 <= i < |p.commands|
      ensures '|' !in p.commands[i] && '|' !in texts[i]
    {
      assert Sound(data[p.commands[i]]);
      NumeralHasNo(texts[i], '|');
    }
    ListingNoBar(p.commands, texts, |p.commands|);
  }

  /** The first line of the report, the state word and its newline, holds
      no `|`. */
  lemma HeaderHasNoBar(s: State)
    ensures '|' !in Word(s) + "\n"
  {
    var w := Word(s);
    assert forall i :: 0 <= i < |w| ==> 'A' <= w[i] <= 'Z';
  }

  /** The report holds a `|` exactly when performance data is enabled, as
      long as no command name holds one. */
  lemma PerfSectionOnlyWhenEnabled(p: Probe, data: map<string, Entry>)
    requires Recorded(p, data)
    requires forall i :: 0 <= i < |p.commands| ==> '|' !in p.commands[i]
    ensures '|' in NagiosFormat(p, data).text <==> p.performanceData
  {
    var n := |p.commands|;
    ValueLinesNoBar(p, data);
    var state := Worst(StatesOf(p, data, n));
    var head := Word(state) + "\n" + ValueLines(p, data, n);
    HeaderHasNoBar(state);
    AbsentFromBoth(Word(state) + "\n", ValueLines(p, data, n), '|');
    if p.performanceData {
      var text := head + "|" + PerfLines(p, data, n);
      assert text[|head|] == '|';
    }
  }
}
