/** `NagiosReporter.process` of the second-generation probe
    (check_redis_2.py): visits the checks in sorted key order, keeps a
    running status, accumulates feedback lines and performance entries,
    and returns the status code together with the text it prints. */
module Reporter {
  import opened Base
  import opened Text
  import opened Ordering
  import opened Checks

  const OK := 0
  const WARN := 1
  const ERROR := 2
  const UNKNOWN := 3
  /** `len(NagiosReporter.STATUS)`. */
  const STATUS_COUNT := 4

  /** `%s` of a check value. */
  function ValueText(v: Value): string
  {
    match v
    case IntV(i) => IntToStr(i)
    case RealV(r) => RealToStr(r)
    case StrV(s) => s
  }

  /** `%s` of an optional value or limit, where Python prints `None`. */
  function ShownValue(v: Option<Value>): string
  {
    if v.None? then "None" else ValueText(v.value)
  }

  function ShownLimit(l: Option<real>): string
  {
    if l.None? then "None" else RealToStr(l.value)
  }

  /** A limit or bound in the performance data: empty when absent. */
  function PerfField(l: Option<real>): string
  {
    if l.None? then "" else RealToStr(l.value)
  }

  /** String values are left out of the report unless the check was forced. */
  predicate Skipped(c: Check)
  {
    c.value.Some? && c.value.value.StrV? && !c.forced
  }

  function Operator(c: Check): string
  {
    if c.ascending then ">" else "<"
  }

  function ErrorLine(c: Check): string
  {
    "ERROR for " + c.key + ": " + ShownValue(c.value) + " " + Operator(c) + " " + ShownLimit(c.errorLimit) + "\n"
  }

  function WarningLine(c: Check): string
  {
    "WARNING for " + c.key + ": " + ShownValue(c.value) + " " + Operator(c) + " " + ShownLimit(c.warningLimit) + "\n"
  }

  function UnknownLine(c: Check): string
  {
    "UNKNOWN: " + c.key + " could not be processed"
  }

  /** `label=value;warn;crit;min;max`, with `U` for a missing value. */
  function PerfEntry(c: Check): string
  {
    c.key + "=" + (if c.value.None? then "U" else ValueText(c.value.value))
    + ";" + PerfField(c.warningLimit) + ";" + PerfField(c.errorLimit)
    + ";" + PerfField(c.minimum) + ";" + PerfField(c.maximum)
  }

  /** The loop variables of `process`. */
  datatype Progress = Progress(status: int, feedback: string, performance: seq<string>)

  const Start := Progress(-1, "", [])

  /** One iteration of the loop of `process`, including the short-circuit
      order in which `is_error` and `is_warning` are evaluated (either can
      raise on a forced string value). */
  function Step(p: Progress, c: Check): Result<Progress>
  {
    if Skipped(c) then Ok(p)
    else
      var perf := p.performance + [PerfEntry(c)];
      var error := if p.status < ERROR then IsError(c) else Ok(false);
      match error
      case Fail(e) => Fail(e)
      case Ok(isError) =>
        if isError then Ok(Progress(ERROR, p.feedback + ErrorLine(c), perf))
        else
          var warning := if p.status < WARN then IsWarning(c) else Ok(false);
          match warning
          case Fail(e) => Fail(e)
          case Ok(isWarning) =>
            if isWarning then Ok(Progress(WARN, p.feedback + WarningLine(c), perf))
            else if c.value.None? then Ok(Progress(p.status, p.feedback + UnknownLine(c), perf))
            else Ok(Progress(OK, p.feedback, perf))
  }

  /** The loop of `process` over a sequence of checks. */
  function Run(cs: seq<Check>): Result<Progress>
  {
    if cs == [] then Ok(Start)
    else
      match Run(cs[..|cs| - 1])
      case Fail(e) => Fail(e)
      case Ok(p) => Step(p, cs[|cs| - 1])
  }

  datatype Report = Report(code: int, text: string)

  /** What `process` prints and returns once the loop is done. */
  function Finish(p: Progress): Report
  {
    var status := if p.status == -1 then UNKNOWN else p.status;
    Report(status % STATUS_COUNT, p.feedback + "\n|" + Join(p.performance, "\n"))
  }

  /** The checks in the order `sorted(check_list.keys())` visits them. */
  function InOrder(checks: map<string, Check>): (cs: seq<Check>)
    ensures |cs| == |checks|
  {
    var keys := SortedKeys(checks.Keys);
    seq(|keys|, i requires 0 <= i < |keys| => checks[keys[i]])
  }

  function Processed(checks: map<string, Check>): Result<Report>
  {
    match Run(InOrder(checks))
    case Fail(e) => Fail(e)
    case Ok(p) => Ok(Finish(p))
  }

  lemma {:induction false} RunFailPersists(cs: seq<Check>, k: nat)
    requires k <= |cs| && Run(cs[..k]).Fail?
    ensures Run(cs) == Run(cs[..k])
    decreases |cs| - k
  {
    if k < |cs| {
      assert cs[..k + 1][..k] == cs[..k];
      RunFailPersists(cs, k + 1);
    } else {
      assert cs[..k] == cs;
    }
  }

  lemma RunExtend(cs: seq<Check>, i: nat)
    requires i < |cs|
    ensures Run(cs[..i + 1]) == match Run(cs[..i]) { case Fail(e) => Fail(e) case Ok(p) => Step(p, cs[i]) }
  {
    assert cs[..i + 1][..i] == cs[..i];
  }

  /** `NagiosReporter.process`. */
  method Process(checks: map<string, Check>) returns (r: Result<Report>)
    ensures r == Processed(checks)
  {
    var keys := SortedKeys(checks.Keys);
    ghost var ordered := InOrder(checks);
    var status := -1;
    var feedback := "";
    var performance: seq<string> := [];
    var i := 0;
    while i < |keys|
      invariant 0 <= i <= |keys|
      invariant Run(ordered[..i]) == Ok(Progress(status, feedback, performance))
    {
      var check := checks[keys[i]];
      RunExtend(ordered, i);
      assert check == ordered[i];
      var next := ProcessCheck(Progress(status, feedback, performance), check);
      if next.Fail? {
        RunFailPersists(ordered, i + 1);
        return Fail(next.error);
      }
      status, feedback, performance := next.value.status, next.value.feedback, next.value.performance;
      i := i + 1;
    }
    assert ordered[..i] == ordered;
    if status == -1 {
      status := UNKNOWN;
    }
    r := Ok(Report(status % STATUS_COUNT, feedback + "\n|" + Join(performance, "\n")));
  }

  /** The body of the loop of `process`, for one check. */
  method ProcessCheck(p: Progress, check: Check) returns (r: Result<Progress>)
    ensures r == Step(p, check)
  {
    var status, feedback, performance := p.status, p.feedback, p.performance;
    if check.value.Some? && check.value.value.StrV? && !check.forced {
      // Unforced string values are not reported.
      return Ok(p);
    }
    var isError := false;
    if status < ERROR {
      var e := IsError(check);
      if e.Fail? {
        return Fail(e.error);
      }
      isError := e.value;
    }
    if isError {
      status := ERROR;
      feedback := feedback + ErrorLine(check);
    } else {
      var isWarning := false;
      if status < WARN {
        var w := IsWarning(check);
        if w.Fail? {
          return Fail(w.error);
        }
        isWarning := w.value;
      }
      if isWarning {
        status := WARN;
        feedback := feedback + WarningLine(check);
      } else if check.value.None? {
        feedback := feedback + UnknownLine(check);
      } else {
        status := OK;
      }
    }
    performance := performance + [PerfEntry(check)];
    r := Ok(Progress(status, feedback, performance));
  }

  // ---------------------------------------------------------------------
  // What the loop computes

  /** A check that is reported on and has a value: the only kind that
      assigns the status. */
  predicate Conclusive(c: Check)
  {
    !Skipped(c) && c.value.Some?
  }

  /** The checks that are not skipped, in order. */
  function Reported(cs: seq<Check>): (rs: seq<Check>)
    ensures |rs| <= |cs|
  {
    if cs == [] then []
    else Reported(cs[..|cs| - 1]) + (if Skipped(cs[|cs| - 1]) then [] else [cs[|cs| - 1]])
  }

  function PerfEntries(cs: seq<Check>): (es: seq<string>)
    ensures |es| == |cs|
  {
    seq(|cs|, i requires 0 <= i < |cs| => PerfEntry(cs[i]))
  }

  /** The status stays between -1 and ERROR, and it is still -1 exactly
      when no check so far was conclusive. */
  lemma {:induction false} RunStatus(cs: seq<Check>)
    requires Run(cs).Ok?
    ensures -1 <= Run(cs).value.status <= ERROR
    ensures Run(cs).value.status == -1 <==> forall i :: 0 <= i < |cs| ==> !Conclusive(cs[i])
  {
    if cs != [] {
      var init := cs[..|cs| - 1];
      RunStatus(init);
    }
  }

  /** Exactly one performance entry per reported check, in visiting order. */
  lemma {:induction false} RunPerformance(cs: seq<Check>)
    requires Run(cs).Ok?
    ensures Run(cs).value.performance == PerfEntries(Reported(cs))
  {
    if cs != [] {
      var init := cs[..|cs| - 1];
      var last := cs[|cs| - 1];
      RunPerformance(init);
      assert Run(cs) == Step(Run(init).value, last);
      StepPerformance(Run(init).value, last);
      if !Skipped(last) {
        assert PerfEntries(Reported(init) + [last]) == PerfEntries(Reported(init)) + [PerfEntry(last)];
      }
    }
  }

  /** A step appends the check's performance entry unless it skips it. */
  lemma StepPerformance(p: Progress, c: Check)
    requires Step(p, c).Ok?
    ensures Step(p, c).value.performance == p.performance + if Skipped(c) then [] else [PerfEntry(c)]
  {
  }

  /** The error test of a step is passed over (the status is ERROR
      already) or does not fire. */
  predicate ErrorQuiet(p: Progress, c: Check)
  {
    p.status >= ERROR || IsError(c) == Ok(false)
  }

  /** The warning test of a step is passed over or does not fire. */
  predicate WarningQuiet(p: Progress, c: Check)
  {
    p.status >= WARN || IsWarning(c) == Ok(false)
  }

  /** The status rule of one step, branch by branch: a skipped check
      changes nothing; an error limit that fires from below ERROR raises
      the status to ERROR with an ERROR line, and a warning limit that fires
      from below WARN (the error test quiet) raises it to WARN with a
      WARNING line; a check without a value keeps the status and adds an
      UNKNOWN line; any other valued check sets the status to OK. A test
      that raises ends the step with its error. Every reported check adds
      its performance entry. */
  lemma StepRule(p: Progress, c: Check)
    ensures Skipped(c) ==> Step(p, c) == Ok(p)
    ensures !Skipped(c) && p.status < ERROR && IsError(c).Fail? ==>
      Step(p, c) == Fail(IsError(c).error)
    ensures !Skipped(c) && p.status < ERROR && IsError(c) == Ok(true) ==>
      Step(p, c) == Ok(Progress(ERROR, p.feedback + ErrorLine(c), p.performance + [PerfEntry(c)]))
    ensures !Skipped(c) && ErrorQuiet(p, c) && p.status < WARN && IsWarning(c).Fail? ==>
      Step(p, c) == Fail(IsWarning(c).error)
    ensures !Skipped(c) && ErrorQuiet(p, c) && p.status < WARN && IsWarning(c) == Ok(true) ==>
      Step(p, c) == Ok(Progress(WARN, p.feedback + WarningLine(c), p.performance + [PerfEntry(c)]))
    ensures !Skipped(c) && c.value.None? ==>
      Step(p, c) == Ok(Progress(p.status, p.feedback + UnknownLine(c), p.performance + [PerfEntry(c)]))
    ensures Conclusive(c) && ErrorQuiet(p, c) && WarningQuiet(p, c) ==>
      Step(p, c) == Ok(Progress(OK, p.feedback, p.performance + [PerfEntry(c)]))
  {
    if !Skipped(c) && c.value.None? {
      AbsentNeverFires(c);
    }
  }

  /** A check whose error limit fires, visited while the status is below
      ERROR, ends the run so far in ERROR with its ERROR line. */
  lemma ErrorRaises(cs: seq<Check>, c: Check)
    requires Run(cs).Ok? && Run(cs).value.status < ERROR
    requires !Skipped(c) && IsError(c) == Ok(true)
    ensures Run(cs + [c]) == Ok(Progress(ERROR, Run(cs).value.feedback + ErrorLine(c),
                                         Run(cs).value.performance + [PerfEntry(c)]))
  {
    assert (cs + [c])[..|cs|] == cs;
    StepRule(Run(cs).value, c);
  }

  /** The same for a warning limit, visited while the status is below WARN
      and with the error limit quiet. */
  lemma WarningRaises(cs: seq<Check>, c: Check)
    requires Run(cs).Ok? && Run(cs).value.status < WARN
    requires !Skipped(c) && IsError(c) == Ok(false) && IsWarning(c) == Ok(true)
    ensures Run(cs + [c]) == Ok(Progress(WARN, Run(cs).value.feedback + WarningLine(c),
                                         Run(cs).value.performance + [PerfEntry(c)]))
  {
    assert (cs + [c])[..|cs|] == cs;
    StepRule(Run(cs).value, c);
  }

  /** An ERROR or WARN status always has a check behind it that fired. */
  lemma {:induction false} StatusWitness(cs: seq<Check>)
    requires Run(cs).Ok?
    ensures Run(cs).value.status == ERROR ==>
      exists i :: 0 <= i < |cs| && !Skipped(cs[i]) && IsError(cs[i]) == Ok(true)
    ensures Run(cs).value.status == WARN ==>
      exists i :: 0 <= i < |cs| && !Skipped(cs[i]) && IsWarning(cs[i]) == Ok(true) && IsError(cs[i]) == Ok(false)
  {
    if cs != [] {
      var init := cs[..|cs| - 1];
      var last := cs[|cs| - 1];
      StatusWitness(init);
      var p := Run(init).value;
      var q := Run(cs).value;
      if q.status == ERROR && q.status != p.status {
        assert !Skipped(last) && IsError(last) == Ok(true);
      } else if q.status == ERROR {
        var i :| 0 <= i < |init| && !Skipped(init[i]) && IsError(init[i]) == Ok(true);
        assert cs[i] == init[i];
      }
      if q.status == WARN && q.status != p.status {
        assert !Skipped(last) && IsWarning(last) == Ok(true) && IsError(last) == Ok(false);
      } else if q.status == WARN {
        var i :| 0 <= i < |init| && !Skipped(init[i]) && IsWarning(init[i]) == Ok(true) && IsError(init[i]) == Ok(false);
        assert cs[i] == init[i];
      }
    }
  }

  /** The status is not a running maximum: a conclusive check that cannot
      raise it any further puts it back to OK, even right after an ERROR. */
  lemma ResetToOk(cs: seq<Check>, c: Check)
    requires Run(cs).Ok? && Conclusive(c)
    requires IsError(c).Ok? && IsWarning(c).Ok?
    requires !(Run(cs).value.status < ERROR && IsError(c).value)
    requires !(Run(cs).value.status < WARN && IsWarning(c).value)
    ensures Run(cs + [c]) == Ok(Progress(OK, Run(cs).value.feedback, Run(cs).value.performance + [PerfEntry(c)]))
  {
    assert (cs + [c])[..|cs|] == cs;
  }

  /** The string a sequence of unlimited checks leaves as feedback: one
      UNKNOWN line per reported check without a value. */
  function UnknownLines(cs: seq<Check>): string
  {
    if cs == [] then ""
    else
      var last := cs[|cs| - 1];
      UnknownLines(cs[..|cs| - 1]) + (if !Skipped(last) && last.value.None? then UnknownLine(last) else "")
  }

  /** With no limits configured nothing fires and nothing raises: the
      feedback holds only UNKNOWN lines, and the status is OK as soon as
      one check is conclusive. */
  lemma {:induction false} NoLimitsNoAlerts(cs: seq<Check>)
    requires forall i :: 0 <= i < |cs| ==> cs[i].warningLimit.None? && cs[i].errorLimit.None?
    ensures Run(cs).Ok?
    ensures Run(cs).value.feedback == UnknownLines(cs)
    ensures Run(cs).value.status == if exists i :: 0 <= i < |cs| && Conclusive(cs[i]) then OK else -1
  {
    if cs != [] {
      var init := cs[..|cs| - 1];
      var last := cs[|cs| - 1];
      assert forall i :: 0 <= i < |init| ==> init[i] == cs[i];
      NoLimitsNoAlerts(init);
      StepWithoutLimits(Run(init).value, last);
      assert Run(cs) == Step(Run(init).value, last);
      ConclusiveSoFar(cs, init);
    }
  }

  /** Some check of a non-empty sequence is conclusive exactly when one of
      all but the last is, or the last is. */
  lemma ConclusiveSoFar(cs: seq<Check>, init: seq<Check>)
    requires cs != [] && init == cs[..|cs| - 1]
    ensures (exists i :: 0 <= i < |cs| && Conclusive(cs[i]))
            <==> (exists i :: 0 <= i < |init| && Conclusive(init[i])) || Conclusive(cs[|cs| - 1])
  {
    if exists i :: 0 <= i < |init| && Conclusive(init[i]) {
      var i :| 0 <= i < |init| && Conclusive(init[i]);
      assert cs[i] == init[i];
    }
    if exists i :: 0 <= i < |cs| && Conclusive(cs[i]) {
      var i :| 0 <= i < |cs| && Conclusive(cs[i]);
      if i < |init| {
        assert init[i] == cs[i];
      }
    }
  }

  /** One step over a check without limits. */
  lemma StepWithoutLimits(p: Progress, c: Check)
    requires c.warningLimit.None? && c.errorLimit.None?
    ensures Step(p, c).Ok?
    ensures Step(p, c).value.feedback == p.feedback + (if !Skipped(c) && c.value.None? then UnknownLine(c) else "")
    ensures Step(p, c).value.status == if Conclusive(c) then OK else p.status
  {
    if !Skipped(c) {
      assert Evaluate(c, c.value, c.errorLimit) == Ok(false);
      assert Evaluate(c, c.value, c.warningLimit) == Ok(false);
    }
  }

  /** A reported check whose value is not a number while it has a limit:
      `float(value)` raises as soon as that limit is evaluated. */
  predicate MayRaise(c: Check)
  {
    !Skipped(c) && c.value.Some? && FloatOf(c.value.value).Fail?
    && (c.warningLimit.Some? || c.errorLimit.Some?)
  }

  /** A run raises only because of such a check, and then with ValueError;
      without one it cannot raise. */
  lemma {:induction false} RunRaises(cs: seq<Check>)
    ensures (forall i :: 0 <= i < |cs| ==> !MayRaise(cs[i])) ==> Run(cs).Ok?
    ensures Run(cs).Fail? ==>
      Run(cs).error == ValueError && exists i :: 0 <= i < |cs| && MayRaise(cs[i])
  {
    if cs != [] {
      var init := cs[..|cs| - 1];
      var last := cs[|cs| - 1];
      RunRaises(init);
      if Run(init).Fail? {
        var i :| 0 <= i < |init| && MayRaise(init[i]);
        assert cs[i] == init[i];
      } else if Run(cs).Fail? {
        assert MayRaise(last);
      }
    }
  }

  // ---------------------------------------------------------------------
  // What `process` returns

  /** The i-th check visited is the check of the i-th smallest name. */
  lemma InOrderAt(checks: map<string, Check>, i: nat)
    requires i < |InOrder(checks)|
    ensures SortedKeys(checks.Keys)[i] in checks
    ensures InOrder(checks)[i] == checks[SortedKeys(checks.Keys)[i]]
  {
    var keys := SortedKeys(checks.Keys);
    assert keys[i] in keys;
  }

  lemma InOrderCovers(checks: map<string, Check>)
    ensures forall i :: 0 <= i < |InOrder(checks)| ==> InOrder(checks)[i] in checks.Values
    ensures forall k :: k in checks ==> checks[k] in InOrder(checks)
  {
    var keys := SortedKeys(checks.Keys);
    var cs := InOrder(checks);
    forall i | 0 <= i < |cs|
      ensures cs[i] in checks.Values
    {
      InOrderAt(checks, i);
    }
    forall k | k in checks
      ensures checks[k] in cs
    {
      var i :| 0 <= i < |keys| && keys[i] == k;
      InOrderAt(checks, i);
    }
  }

  /** No check of the set is conclusive exactly when none of them is in
      visiting order. */
  lemma InconclusiveInOrder(checks: map<string, Check>)
    ensures (forall i :: 0 <= i < |InOrder(checks)| ==> !Conclusive(InOrder(checks)[i]))
            <==> (forall k :: k in checks ==> !Conclusive(checks[k]))
  {
    var keys := SortedKeys(checks.Keys);
    var cs := InOrder(checks);
    if forall k :: k in checks ==> !Conclusive(checks[k]) {
      forall i | 0 <= i < |cs|
        ensures !Conclusive(cs[i])
      {
        InOrderAt(checks, i);
      }
    }
    if forall i :: 0 <= i < |cs| ==> !Conclusive(cs[i]) {
      forall k | k in checks
        ensures !Conclusive(checks[k])
      {
        var i :| 0 <= i < |keys| && keys[i] == k;
        InOrderAt(checks, i);
      }
    }
  }

  lemma FinishCode(p: Progress)
    requires -1 <= p.status <= ERROR
    ensures Finish(p).code == if p.status == -1 then UNKNOWN else p.status
  {
  }

  /** The returned code lies in 0..3, and it is UNKNOWN exactly when no
      check in the set was conclusive. */
  lemma ProcessedCode(checks: map<string, Check>)
    requires Processed(checks).Ok?
    ensures 0 <= Processed(checks).value.code <= UNKNOWN
    ensures Processed(checks).value.code == UNKNOWN <==> forall k :: k in checks ==> !Conclusive(checks[k])
  {
    var cs := InOrder(checks);
    var p := Run(cs).value;
    assert Processed(checks) == Ok(Finish(p));
    RunStatus(cs);
    FinishCode(p);
    InconclusiveInOrder(checks);
  }

  /** The printed text is the feedback, a newline and `|`, then one
      performance entry per reported check in sorted key order, joined by
      newlines; the code is the final status, UNKNOWN if it was never set. */
  lemma ProcessedReport(checks: map<string, Check>)
    requires Processed(checks).Ok?
    ensures var p := Run(InOrder(checks)).value;
      && Processed(checks).value.text
         == p.feedback + "\n|" + Join(PerfEntries(Reported(InOrder(checks))), "\n")
      && Processed(checks).value.code == (if p.status == -1 then UNKNOWN else p.status)
  {
    var cs := InOrder(checks);
    var p := Run(cs).value;
    assert Processed(checks) == Ok(Finish(p));
    RunStatus(cs);
    FinishCode(p);
    RunPerformance(cs);
  }

  lemma InOrderPair(a: Check, b: Check)
    requires LexLess(a.key, b.key)
    ensures InOrder(map[a.key := a, b.key := b]) == [a, b]
  {
    var checks := map[a.key := a, b.key := b];
    LexLessIrreflexive(a.key);
    assert checks.Keys == {a.key, b.key};
    SortedPair(a.key, b.key);
  }

  lemma RunTwoErrors(a: Check, b: Check)
    requires !Skipped(a) && IsError(a) == Ok(true)
    requires !Skipped(b) && IsError(b) == Ok(true)
    ensures Run([a, b]).Ok? && Run([a, b]).value.status == OK
  {
    assert [a, b][..1] == [a];
    assert [a][..0] == [];
    StepRule(Start, a);
    assert Run([a]) == Step(Start, a);
    StepRule(Run([a]).value, b);
  }

  /** Its consequence for two critical checks: the second one resets the
      status, and the script exits OK. */
  lemma TwoErrorsReportOk(a: Check, b: Check)
    requires LexLess(a.key, b.key)
    requires !Skipped(a) && IsError(a) == Ok(true)
    requires !Skipped(b) && IsError(b) == Ok(true)
    ensures Processed(map[a.key := a, b.key := b]).Ok?
    ensures Processed(map[a.key := a, b.key := b]).value.code == OK
  {
    InOrderPair(a, b);
    RunTwoErrors(a, b);
    FinishCode(Run([a, b]).value);
  }

  lemma RunQuietThenError(a: Check, b: Check)
    requires Conclusive(a) && IsError(a) == Ok(false) && IsWarning(a) == Ok(false)
    requires !Skipped(b) && IsError(b) == Ok(true)
    ensures Run([a, b]) == Ok(Progress(ERROR, ErrorLine(b), [PerfEntry(a), PerfEntry(b)]))
  {
    var ea, eb, line := PerfEntry(a), PerfEntry(b), ErrorLine(b);
    assert [a][..0] == [] && [a, b] == [a] + [b];
    StepRule(Start, a);
    assert Start.performance + [ea] == [ea];
    assert Run([a]) == Ok(Progress(OK, "", [ea]));
    ErrorRaises([a], b);
    assert "" + line == line;
    assert [ea] + [eb] == [ea, eb];
  }

  /** A quiet valued check followed, in key order, by one whose error
      limit fires: the report ends CRITICAL, with the ERROR line alone as
      feedback. */
  lemma QuietThenErrorReportsCritical(a: Check, b: Check)
    requires LexLess(a.key, b.key)
    requires Conclusive(a) && IsError(a) == Ok(false) && IsWarning(a) == Ok(false)
    requires !Skipped(b) && IsError(b) == Ok(true)
    ensures Processed(map[a.key := a, b.key := b]).Ok?
    ensures Processed(map[a.key := a, b.key := b]).value.code == ERROR
    ensures Processed(map[a.key := a, b.key := b]).value.text
            == ErrorLine(b) + "\n|" + Join([PerfEntry(a), PerfEntry(b)], "\n")
  {
    var checks := map[a.key := a, b.key := b];
    var p := Progress(ERROR, ErrorLine(b), [PerfEntry(a), PerfEntry(b)]);
    InOrderPair(a, b);
    RunQuietThenError(a, b);
    assert Run(InOrder(checks)) == Ok(p);
    assert Processed(checks) == Ok(Finish(p));
    FinishCode(p);
  }

  /** The fields of a performance entry read back by position, as
      long as the key and a string value hold no `;`. */
  lemma PerfEntryFields(c: Check)
    requires ';' !in c.key
    requires c.value.Some? && c.value.value.StrV? ==> ';' !in c.value.value.s
    ensures Split(PerfEntry(c), ';') ==
      [c.key + "=" + (if c.value.None? then "U" else ValueText(c.value.value)),
       PerfField(c.warningLimit), PerfField(c.errorLimit),
       PerfField(c.minimum), PerfField(c.maximum)]
  {
    var shown := if c.value.None? then "U" else ValueText(c.value.value);
    if c.value.Some? && !c.value.value.StrV? {
      NumeralHasNo(shown, ';');
    }
    var head := c.key + "=" + shown;
    assert ';' !in head;
    var w, e, m, x := PerfField(c.warningLimit), PerfField(c.errorLimit), PerfField(c.minimum), PerfField(c.maximum);
    if c.warningLimit.Some? { NumeralHasNo(w, ';'); }
    if c.errorLimit.Some? { NumeralHasNo(e, ';'); }
    if c.minimum.Some? { NumeralHasNo(m, ';'); }
    if c.maximum.Some? { NumeralHasNo(x, ';'); }
    assert PerfEntry(c) == head + ";" + w + ";" + e + ";" + m + ";" + x;
    SplitFive(head, w, e, m, x, ';');
  }
}
