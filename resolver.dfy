/** The value resolution of the second-generation probe
    (check_redis_2.py, class `Redis`): `get_value` with its derived metrics
    `hit_ratio`, `total_keys` and `total_keys_<db>`, the int / float /
    string coercion of `check`, and `list_checks`. */
module Resolver {
  import opened Base
  import opened Text
  import opened Info
  import opened Checks

  const HitRatioName := "hit_ratio"
  const TotalKeysName := "total_keys"
  const TotalKeysPrefix := "total_keys_"

  /** `Redis._hit_ratio`: hits / (hits + misses), `None` when the sum is
      zero; a missing counter raises KeyError, an unreadable one the error
      of `float()`. */
  function HitRatio(info: Snapshot): Result<Option<real>>
  {
    match Counters(info)
    case Fail(e) => Fail(e)
    case Ok((hits, misses)) =>
      if hits + misses == 0.0 then Ok(None) else Ok(Some(hits / (hits + misses)))
  }

  /** For integer counters the ratio is defined exactly when they do not
      sum to zero; it is then the share of hits, and for non-negative
      counters it lies in [0, 1]. */
  lemma HitRatioOfCounters(info: Snapshot, hits: int, misses: int)
    requires Lookup(info, "keyspace_hits") == Some(Int(hits))
    requires Lookup(info, "keyspace_misses") == Some(Int(misses))
    ensures HitRatio(info).Ok?
    ensures HitRatio(info).value.None? <==> hits + misses == 0
    ensures HitRatio(info).value.Some? ==>
      HitRatio(info).value.value * (hits + misses) as real == hits as real
    ensures HitRatio(info).value.Some? && hits >= 0 && misses >= 0 ==>
      0.0 <= HitRatio(info).value.value <= 1.0
  {
    var h, m := hits as real, misses as real;
    assert Counters(info) == Ok((h, m));
    if hits + misses != 0 {
      assert HitRatio(info) == Ok(Some(h / (h + m)));
      Share(h, m);
    } else {
      assert HitRatio(info) == Ok(None);
    }
  }

  /** The share of a part in a non-zero whole, and its bounds. */
  lemma Share(h: real, m: real)
    requires h + m != 0.0
    ensures (h / (h + m)) * (h + m) == h
    ensures h >= 0.0 && m >= 0.0 ==> 0.0 <= h / (h + m) <= 1.0
  {
    if h >= 0.0 && m >= 0.0 {
      RatioInUnit(h, h + m);
    }
  }

  lemma RatioInUnit(part: real, whole: real)
    requires 0.0 <= part <= whole && whole > 0.0
    ensures 0.0 <= part / whole <= 1.0
  {
  }


  /** A `db`-prefixed item holding a dictionary: what the loop of
      `_total_keys` counts. */
  predicate IsDbItem(item: (string, RawValue))
  {
    StartsWith(item.0, "db") && item.1.Dict?
  }

  /** `int(v.get('keys', 0))`. */
  function KeysOrZero(d: map<string, int>): int
  {
    if "keys" in d then d["keys"] else 0
  }

  /** What `_total_keys()` without a database returns: the `return` sits
      inside the loop, so it is the count of the first database item, and
      `None` when there is none. */
  function FirstDbKeys(info: Snapshot): Option<int>
  {
    if info == [] then None
    else if IsDbItem(info[0]) then Some(KeysOrZero(info[0].1.d))
    else FirstDbKeys(info[1..])
  }

  /** The first database item decides, and only a snapshot without one
      gives `None`. */
  lemma {:induction false} FirstDbKeysIsFirst(info: Snapshot)
    ensures FirstDbKeys(info).None? <==> forall i :: 0 <= i < |info| ==> !IsDbItem(info[i])
    ensures FirstDbKeys(info).Some? ==>
      exists i :: 0 <= i < |info| && IsDbItem(info[i])
        && (forall j :: 0 <= j < i ==> !IsDbItem(info[j]))
        && FirstDbKeys(info).value == KeysOrZero(info[i].1.d)
  {
    if info != [] && !IsDbItem(info[0]) {
      var rest := info[1..];
      FirstDbKeysIsFirst(rest);
      assert forall i :: 1 <= i < |info| ==> info[i] == rest[i - 1];
      if FirstDbKeys(rest).Some? {
        var i :| 0 <= i < |rest| && IsDbItem(rest[i])
          && (forall j :: 0 <= j < i ==> !IsDbItem(rest[j]))
          && FirstDbKeys(rest).value == KeysOrZero(rest[i].1.d);
        assert info[i + 1] == rest[i];
        forall j | 0 <= j < i + 1
          ensures !IsDbItem(info[j])
        {
          if j > 0 { assert info[j] == rest[j - 1]; }
        }
      }
    }
  }

  /** The name notwithstanding, `total_keys` is not the sum over the
      databases: with two databases it is the count of the first. */
  lemma TotalKeysIsNotASum()
    ensures FirstDbKeys([("db0", Dict(map["keys" := 3])), ("db1", Dict(map["keys" := 4]))]) == Some(3)
  {
    assert StartsWith("db0", "db");
  }

  /** The loop of `Redis._total_keys` when no database is named. */
  method TotalKeysScan(info: Snapshot) returns (r: Option<int>)
    ensures r == FirstDbKeys(info)
  {
    var i := 0;
    while i < |info|
      invariant 0 <= i <= |info|
      invariant FirstDbKeys(info) == FirstDbKeys(info[i..])
    {
      assert info[i..][1..] == info[i + 1..];
      var (k, v) := info[i];
      if !StartsWith(k, "db") {
        i := i + 1;
        continue;
      }
      if !v.Dict? {
        i := i + 1;
        continue;
      }
      var result := 0;
      result := result + KeysOrZero(v.d);
      return Some(result);
    }
    return None;
  }

  /** `Redis._total_keys(db)` for a named database: `None` when it is
      absent, its `keys` count when present, KeyError for a dictionary
      without `keys` and TypeError for an item that is not a dictionary. */
  function DbKeys(info: Snapshot, db: string): Result<Option<int>>
  {
    match Lookup(info, db)
    case None => Ok(None)
    case Some(v) =>
      if !v.Dict? then Fail(TypeError)
      else if "keys" in v.d then Ok(Some(v.d["keys"]))
      else Fail(KeyError)
  }

  /** `Redis.get_value`: a snapshot item, else `hit_ratio`, else
      `total_keys_<db>`, else `total_keys`, else `None`. */
  function GetValue(info: Snapshot, name: string): Result<Option<RawValue>>
  {
    if Lookup(info, name).Some? then Ok(Lookup(info, name))
    else if name == HitRatioName then
      match HitRatio(info)
      case Fail(e) => Fail(e)
      case Ok(ratio) => Ok(if ratio.None? then None else Some(Real(ratio.value)))
    else if StartsWith(name, TotalKeysPrefix) then
      match DbKeys(info, name[|TotalKeysPrefix|..])
      case Fail(e) => Fail(e)
      case Ok(n) => Ok(if n.None? then None else Some(Int(n.value)))
    else if name == TotalKeysName then
      var n := FirstDbKeys(info);
      Ok(if n.None? then None else Some(Int(n.value)))
    else
      Ok(None)
  }

  /** The order in which `get_value` tries the sources, and the value each
      gives: each applies only when the ones before it did not, and a
      number it computes comes back as a snapshot value. */
  lemma GetValueOrder(info: Snapshot, name: string)
    ensures Lookup(info, name).Some? ==> GetValue(info, name) == Ok(Lookup(info, name))
    ensures Lookup(info, name).None? && name == HitRatioName ==>
      (HitRatio(info).Fail? ==> GetValue(info, name) == Fail(HitRatio(info).error))
      && (HitRatio(info) == Ok(None) ==> GetValue(info, name) == Ok(None))
      && (HitRatio(info).Ok? && HitRatio(info).value.Some? ==>
            GetValue(info, name) == Ok(Some(Real(HitRatio(info).value.value))))
    ensures Lookup(info, name).None? && StartsWith(name, TotalKeysPrefix) ==>
      var db := DbKeys(info, name[|TotalKeysPrefix|..]);
      (db.Fail? ==> GetValue(info, name) == Fail(db.error))
      && (db == Ok(None) ==> GetValue(info, name) == Ok(None))
      && (db.Ok? && db.value.Some? ==> GetValue(info, name) == Ok(Some(Int(db.value.value))))
    ensures Lookup(info, name).None? && name == TotalKeysName ==>
      (FirstDbKeys(info).None? ==> GetValue(info, name) == Ok(None))
      && (FirstDbKeys(info).Some? ==> GetValue(info, name) == Ok(Some(Int(FirstDbKeys(info).value))))
    ensures (Lookup(info, name).None? && name != HitRatioName && name != TotalKeysName
             && !StartsWith(name, TotalKeysPrefix)) ==> GetValue(info, name) == Ok(None)
  {
    if name == TotalKeysName {
      assert !StartsWith(name, TotalKeysPrefix);
    }
    if StartsWith(name, TotalKeysPrefix) {
      assert name[0] != HitRatioName[0];
    }
  }

  /** `total_keys_<db>`, when the snapshot has no item of that name, reads
      database `db`: `None` when it is absent, its `keys` count when it is a
      dictionary holding one, KeyError for a dictionary without `keys`, and
      TypeError for an item that is not a dictionary. */
  lemma TotalKeysOfDb(info: Snapshot, db: string)
    requires Lookup(info, TotalKeysPrefix + db).None?
    ensures Lookup(info, db).None? ==> GetValue(info, TotalKeysPrefix + db) == Ok(None)
    ensures Lookup(info, db).Some? && Lookup(info, db).value.Dict? && "keys" in Lookup(info, db).value.d ==>
      GetValue(info, TotalKeysPrefix + db) == Ok(Some(Int(Lookup(info, db).value.d["keys"])))
    ensures Lookup(info, db).Some? && Lookup(info, db).value.Dict? && "keys" !in Lookup(info, db).value.d ==>
      GetValue(info, TotalKeysPrefix + db) == Fail(KeyError)
    ensures Lookup(info, db).Some? && !Lookup(info, db).value.Dict? ==>
      GetValue(info, TotalKeysPrefix + db) == Fail(TypeError)
  {
    var name := TotalKeysPrefix + db;
    assert name[0] != HitRatioName[0];
    assert name[..|TotalKeysPrefix|] == TotalKeysPrefix;
    assert name[|TotalKeysPrefix|..] == db;
  }

  /** `total_keys_db0` is the `keys` count of `db0`; `total_keys_db1` on a
      snapshot without `db1` is `None`. */
  lemma DbKeysExample()
    ensures GetValue([("db0", Dict(map["keys" := 7, "expires" := 1]))], "total_keys_db0") == Ok(Some(Int(7)))
    ensures GetValue([("db0", Dict(map["keys" := 7, "expires" := 1]))], "total_keys_db1") == Ok(None)
  {
    assert StartsWith("total_keys_db0", TotalKeysPrefix);
    assert "total_keys_db0"[|TotalKeysPrefix|..] == "db0";
    assert StartsWith("total_keys_db1", TotalKeysPrefix);
    assert "total_keys_db1"[|TotalKeysPrefix|..] == "db1";
  }

  /** With no hits and no misses the hit ratio is `None`, not 0 and not a
      fault. */
  lemma HitRatioWithoutTraffic()
    ensures GetValue([("keyspace_hits", Int(0)), ("keyspace_misses", Int(0))], HitRatioName) == Ok(None)
  {
  }

  /** Python's `int()` of a float: truncation toward zero. */
  function Truncate(r: real): (n: int)
    ensures 0.0 <= r ==> n as real <= r < n as real + 1.0
    ensures r < 0.0 ==> n as real - 1.0 < r <= n as real
  {
    if r >= 0.0 then r.Floor else -((-r).Floor)
  }

  /** The coercion in `Redis.check`: `int()` first, then `float()`, then
      the raw string; `int()` of a dictionary raises TypeError, which is
      not caught. */
  function Coerce(v: RawValue): Result<Value>
  {
    match v
    case Int(i) => Ok(IntV(i))
    case Real(r) => Ok(IntV(Truncate(r)))
    case Str(s) =>
      if ParseInt(s).Some? then Ok(IntV(ParseInt(s).value))
      else if ParseReal(s).Some? then Ok(RealV(ParseReal(s).value))
      else Ok(StrV(s))
    case Dict(_) => Fail(TypeError)
  }

  /** Because `int()` is tried first, every float becomes an integer:
      a hit ratio of 0.8 is stored as 0. */
  lemma CoerceTruncatesFloats(r: real)
    ensures Coerce(Real(r)).Ok? && Coerce(Real(r)).value.IntV?
    ensures Coerce(Real(0.8)) == Ok(IntV(0))
  {
  }

  /** A string that `str()` of an integer produced comes back as that
      integer; one that `int()` refuses and `float()` reads comes back as
      that number (`0.9` stays 0.9, where the float 0.9 became 0); a string
      that stays a string is one `float()` cannot read, so evaluating a
      limit on it raises. */
  lemma CoerceStrings(s: string, n: int, x: real)
    ensures Coerce(Str(IntToStr(n))) == Ok(IntV(n))
    ensures ParseInt(s).None? && ParseReal(s) == Some(x) ==> Coerce(Str(s)) == Ok(RealV(x))
    ensures Coerce(Str("0.9")) == Ok(RealV(0.9))
    ensures Coerce(Str(s)).Ok?
    ensures Coerce(Str(s)).value.StrV? ==>
      Coerce(Str(s)).value.s == s && FloatOf(Coerce(Str(s)).value).Fail?
  {
    ParseIntRoundTrip(n);
    ReadsPointNine();
    assert !IsDigit("0.9"[1]);
    assert ParseInt("0.9").None?;
  }

  /** What `Redis.check` does to one check: only its value changes, and
      only when the name resolves. */
  function ResolveOne(info: Snapshot, c: Check): Result<Check>
  {
    match GetValue(info, c.key)
    case Fail(e) => Fail(e)
    case Ok(None) => Ok(c)
    case Ok(Some(raw)) =>
      match Coerce(raw)
      case Fail(e) => Fail(e)
      case Ok(v) => Ok(c.(value := Some(v)))
  }

  lemma ResolveOneChangesOnlyValue(info: Snapshot, c: Check)
    requires ResolveOne(info, c).Ok?
    ensures ResolveOne(info, c).value == c.(value := ResolveOne(info, c).value.value)
    ensures GetValue(info, c.key) == Ok(None) ==> ResolveOne(info, c).value == c
    ensures GetValue(info, c.key).value.Some? ==> ResolveOne(info, c).value.value.Some?
  {
  }

  predicate Resolvable(info: Snapshot, checks: map<string, Check>)
  {
    forall k :: k in checks ==> ResolveOne(info, checks[k]).Ok?
  }

  /** The checks after a resolution that raised nowhere. */
  function Resolved(info: Snapshot, checks: map<string, Check>): (r: map<string, Check>)
    requires Resolvable(info, checks)
    ensures r.Keys == checks.Keys
  {
    map k | k in checks :: ResolveOne(info, checks[k]).value
  }

  /** `Redis.check(check_list)`, looping over the checks in dictionary
      order and updating each check's value. The first check whose
      resolution raises ends the run with that error. */
  method ResolveChecks(info: Snapshot, checks: map<string, Check>) returns (r: Result<map<string, Check>>)
    ensures r.Ok? <==> Resolvable(info, checks)
    ensures r.Ok? ==> r.value == Resolved(info, checks)
    ensures r.Fail? ==> exists k :: k in checks && ResolveOne(info, checks[k]) == Fail(r.error)
  {
    var result := checks;
    var remaining := checks.Keys;
    while remaining != {}
      invariant remaining <= checks.Keys
      invariant result.Keys == checks.Keys
      invariant forall k :: k in remaining ==> result[k] == checks[k]
      invariant forall k :: k in checks && k !in remaining ==> ResolveOne(info, checks[k]) == Ok(result[k])
      decreases remaining
    {
      var key :| key in remaining;
      var check := result[key];
      var value := GetValue(info, check.key);
      if value.Fail? {
        return Fail(value.error);
      }
      if value.value.Some? {
        var coerced := Coerce(value.value.value);
        if coerced.Fail? {
          return Fail(coerced.error);
        }
        result := result[key := check.(value := Some(coerced.value))];
      }
      remaining := remaining - {key};
    }
    assert forall k :: k in checks ==> ResolveOne(info, checks[k]) == Ok(result[k]);
    r := Ok(result);
  }

  /** `Redis.list_checks`: the snapshot's names, then `hit_ratio`. */
  function ListChecks(info: Snapshot): seq<string>
  {
    Keys(info) + [HitRatioName]
  }

  /** Every listed name resolves: the snapshot's own names directly to
      their items, and `hit_ratio` as computed unless the snapshot has an
      item of that name. `total_keys` is not listed. */
  lemma ListedNamesResolve(info: Snapshot)
    ensures |ListChecks(info)| == |info| + 1 && ListChecks(info)[|info|] == HitRatioName
    ensures forall i :: 0 <= i < |info| ==>
      GetValue(info, ListChecks(info)[i]).Ok? && GetValue(info, ListChecks(info)[i]).value.Some?
    ensures TotalKeysName in ListChecks(info) <==> Lookup(info, TotalKeysName).Some?
  {
    var names := ListChecks(info);
    forall i | 0 <= i < |info|
      ensures GetValue(info, names[i]).Ok? && GetValue(info, names[i]).value.Some?
    {
      assert names[i] == info[i].0;
      assert Lookup(info, names[i]).Some?;
    }
    if TotalKeysName in names {
      var i :| 0 <= i < |names| && names[i] == TotalKeysName;
      assert i < |info|;
      assert info[i].0 == TotalKeysName;
    }
    if Lookup(info, TotalKeysName).Some? {
      var i :| 0 <= i < |info| && info[i].0 == TotalKeysName;
      assert names[i] == TotalKeysName;
    }
  }
}
