/** The statistics snapshot the server returns (`INFO`), as both probes
    see it: a dictionary from names to numbers, strings, or nested
    per-database dictionaries of counts. */
module Info {
  import opened Base
  import opened Text

  datatype RawValue =
    | Int(i: int)
    | Real(r: real)
    | Str(s: string)
    | Dict(d: map<string, int>)

  /** The items of the snapshot in the order Python's `keys()` yields them. */
  type Snapshot = seq<(string, RawValue)>

  /** `info[key]`: the value of the first item named `key`, if any. */
  function Lookup(info: Snapshot, key: string): (r: Option<RawValue>)
    ensures r.None? <==> forall i :: 0 <= i < |info| ==> info[i].0 != key
    ensures r.Some? ==> exists i :: 0 <= i < |info| && info[i] == (key, r.value)
  {
    if info == [] then None
    else if info[0].0 == key then Some(info[0].1)
    else
      var r := Lookup(info[1..], key);
      assert forall i :: 1 <= i < |info| ==> info[i] == info[1..][i - 1];
      r
  }

  /** The item found is the first one with the name. A Python dictionary
      has each name once, where "first" and "only" agree. */
  lemma {:induction false} LookupIsFirst(info: Snapshot, key: string)
    ensures Lookup(info, key).Some? ==>
      exists i :: 0 <= i < |info| && info[i] == (key, Lookup(info, key).value)
        && forall j :: 0 <= j < i ==> info[j].0 != key
  {
    if info != [] && info[0].0 != key {
      var rest := info[1..];
      LookupIsFirst(rest, key);
      if Lookup(rest, key).Some? {
        var i :| 0 <= i < |rest| && rest[i] == (key, Lookup(rest, key).value)
          && forall j :: 0 <= j < i ==> rest[j].0 != key;
        assert info[i + 1] == rest[i];
        forall j | 0 <= j < i + 1
          ensures info[j].0 != key
        {
          if j > 0 { assert info[j] == rest[j - 1]; }
        }
      }
    } else if info != [] {
      assert info[0] == (key, Lookup(info, key).value);
    }
  }

  /** `info.keys()`. */
  function Keys(info: Snapshot): (ks: seq<string>)
    ensures |ks| == |info|
    ensures forall i :: 0 <= i < |info| ==> ks[i] == info[i].0
  {
    seq(|info|, i requires 0 <= i < |info| => info[i].0)
  }

  /** Python's `float()` of a snapshot value. */
  function ToFloat(v: RawValue): Result<real>
  {
    match v
    case Int(i) => Ok(i as real)
    case Real(r) => Ok(r)
    case Str(s) => FloatOfText(s)
    case Dict(_) => Fail(TypeError)
  }

  /** `float(info['keyspace_hits'])` and `float(info['keyspace_misses'])`,
      in the order both hit-ratio computations evaluate them: KeyError for
      a missing counter, the error of `float()` for an unreadable one. */
  function Counters(info: Snapshot): Result<(real, real)>
  {
    match Lookup(info, "keyspace_hits")
    case None => Fail(KeyError)
    case Some(h) =>
      match ToFloat(h)
      case Fail(e) => Fail(e)
      case Ok(hits) =>
        match Lookup(info, "keyspace_misses")
        case None => Fail(KeyError)
        case Some(m) =>
          match ToFloat(m)
          case Fail(e) => Fail(e)
          case Ok(misses) => Ok((hits, misses))
  }
}
