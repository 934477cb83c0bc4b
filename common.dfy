/** Shared vocabulary of the zone engine: optional values, results, the
    dynamically typed values held by the statistics dictionaries, and the
    exceptions the engine can raise. */
module Common {

  datatype Option<+T> = None | Some(value: T)

  datatype Result<+T, +E> = Ok(value: T) | Err(error: E)

  /** A value stored in a statistics dictionary. Python ints and floats are
      both `Num`, taken before any rounding. */
  datatype Value =
    | Num(x: real)
    | NoValue                       // Python None
    | NaN                           // float("nan"), from 0.0 / 0.0
    | Inf(positive: bool)           // float("inf") or float("-inf"), from x / 0.0
    | Dict(entries: seq<(string, Value)>)

  /** An insertion-ordered Python dict from statistic names to values. */
  type Stats = seq<(string, Value)>

  /** The exceptions raised by the engine; each one aborts the whole run. */
  datatype Failure =
    | UnknownEnv(env: string)                 // ValueError: env not in env_params
    | BadRadius(env: string)                  // ValueError: rayon_km missing or <= 0
    | CentreNotFound(centre: string)          // ValueError: centre IRIS absent from the index
    | UnknownCandidates(codes: seq<string>)   // KeyError: candidates absent from the centroid table;
                                              // only an index returning codes outside the prepared layer gets here
    | MissingColumn(column: string)           // KeyError: a required column is absent
    | NothingToConcatenate                    // ValueError: pd.concat of an empty list

  /** The value stored under `key` in an insertion-ordered dict (first match). */
  function Lookup(s: Stats, key: string): (r: Option<Value>)
    ensures r.Some? <==> exists i :: 0 <= i < |s| && s[i].0 == key
    ensures r.Some? ==> (key, r.value) in s
  {
    if s == [] then None
    else if s[0].0 == key then Some(s[0].1)
    else Lookup(s[1..], key)
  }

  lemma {:induction false} LookupAppend(a: Stats, b: Stats, key: string)
    ensures Lookup(a + b, key) == if Lookup(a, key).Some? then Lookup(a, key) else Lookup(b, key)
  {
    if a != [] {
      assert (a + b)[1..] == a[1..] + b;
      LookupAppend(a[1..], b, key);
    } else {
      assert a + b == b;
    }
  }
}
