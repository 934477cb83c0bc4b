/** `flatten_stats`: turns a statistics dictionary whose values may be
    dictionaries into one flat dictionary whose keys are column names. */
module Flatten {
  import opened Common
  import opened Text

  /** A dictionary whose keys are pairwise distinct, as every Python dict is. */
  predicate DistinctKeys(d: Stats) {
    forall i, j :: 0 <= i < j < |d| ==> d[i].0 != d[j].0
  }

  /** Assignment to a key of an insertion-ordered dict: an existing key keeps its position and takes the
      new value; a new key is appended at the end. */
  function Put(d: Stats, k: string, v: Value): Stats {
    if d == [] then [(k, v)]
    else if d[0].0 == k then [(k, v)] + d[1..]
    else [d[0]] + Put(d[1..], k, v)
  }

  /** Assigning to an existing key leaves the keys and their order as they
      were; assigning to a new key appends it. */
  lemma {:induction false} PutShape(d: Stats, k: string, v: Value)
    ensures Lookup(d, k).Some? ==>
      |Put(d, k, v)| == |d| && forall i :: 0 <= i < |d| ==> Put(d, k, v)[i].0 == d[i].0
    ensures Lookup(d, k).None? ==> Put(d, k, v) == d + [(k, v)]
  {
    if d != [] && d[0].0 != k {
      PutShape(d[1..], k, v);
      assert d == [d[0]] + d[1..];
    }
  }

  /** After assigning `v` to `k`, `k` holds `v` and every other key keeps its value. */
  lemma {:induction false} PutLookup(d: Stats, k: string, v: Value, key: string)
    ensures Lookup(Put(d, k, v), key) == if key == k then Some(v) else Lookup(d, key)
  {
    if d != [] && d[0].0 != k {
      PutLookup(d[1..], k, v, key);
    }
  }

  /** Assignment keeps the keys of a dictionary distinct. */
  lemma PutDistinct(d: Stats, k: string, v: Value)
    requires DistinctKeys(d)
    ensures DistinctKeys(Put(d, k, v))
  {
    PutShape(d, k, v);
    if Lookup(d, k).None? {
      assert Put(d, k, v) == d + [(k, v)];
    }
  }

  /** The dictionary `d` after the assignments `pairs`, in order. */
  function PutAll(d: Stats, pairs: Stats): Stats {
    if pairs == [] then d
    else Put(PutAll(d, pairs[..|pairs| - 1]), pairs[|pairs| - 1].0, pairs[|pairs| - 1].1)
  }

  /** The value of the last assignment to `key` among `pairs`, if any. */
  function LastWrite(pairs: Stats, key: string): (r: Option<Value>)
    ensures r.Some? ==> (key, r.value) in pairs
    ensures r.None? ==> forall i :: 0 <= i < |pairs| ==> pairs[i].0 != key
  {
    if pairs == [] then None
    else if pairs[|pairs| - 1].0 == key then Some(pairs[|pairs| - 1].1)
    else LastWrite(pairs[..|pairs| - 1], key)
  }

  /** The assignments made for the entries of an inner dictionary: each inner
      key is appended to the outer column name and renamed by `name`, and its
      value is stored as is. */
  function DictPairs(col: string, entries: Stats, name: string -> string): Stats {
    seq(|entries|, i requires 0 <= i < |entries| => (name(col + "_" + entries[i].0), entries[i].1))
  }

  /** The assignments made for one entry of the outer dictionary. */
  function EntryPairs(prefix: string, k: string, v: Value, name: string -> string): Stats {
    var col := name(prefix + k);
    if v.Dict? then DictPairs(col, v.entries, name) else [(col, v)]
  }

  /** The assignments made by flattening `stats`, in order, when keys are
      turned into column names by `name`. */
  function FlattenWith(stats: Stats, prefix: string, name: string -> string): Stats {
    if stats == [] then []
    else
      var last := stats[|stats| - 1];
      FlattenWith(stats[..|stats| - 1], prefix, name) + EntryPairs(prefix, last.0, last.1, name)
  }

  /** All assignments made by `flatten_stats`, whose column names are the
      keys with spaces turned into underscores and parentheses removed. */
  function FlattenPairs(stats: Stats, prefix: string): Stats {
    FlattenWith(stats, prefix, Sanitize)
  }

  /** The flat dictionary that `flatten_stats(stats, prefix)` returns. */
  method FlattenStats(stats: Stats, prefix: string) returns (out: Stats)
    ensures out == PutAll([], FlattenPairs(stats, prefix))
  {
    out := [];
    var i := 0;
    while i < |stats|
      invariant 0 <= i <= |stats|
      invariant out == PutAll([], FlattenWith(stats[..i], prefix, Sanitize))
    {
      FlattenWithStep(stats, i, prefix, Sanitize);
      out := FlattenEntry(out, FlattenWith(stats[..i], prefix, Sanitize), prefix, stats[i].0, stats[i].1, Sanitize);
      i := i + 1;
    }
    assert stats[..i] == stats;
  }

  /** One pass of the outer loop of `flatten_stats`: a dictionary value has
      each of its entries stored under the outer column name joined to the
      inner key, any other value is stored under the column name itself. */
  method FlattenEntry(out0: Stats, ghost before: Stats, prefix: string, k: string, v: Value,
                      name: string -> string) returns (out: Stats)
    requires out0 == PutAll([], before)
    ensures out == PutAll([], before + EntryPairs(prefix, k, v, name))
  {
    var col := name(prefix + k);
    out := out0;
    if v.Dict? {
      var j := 0;
      assert before + DictPairs(col, v.entries[..0], name) == before;
      while j < |v.entries|
        invariant 0 <= j <= |v.entries|
        invariant out == PutAll([], before + DictPairs(col, v.entries[..j], name))
      {
        var kk, vv := v.entries[j].0, v.entries[j].1;
        DictPairsStep(col, v.entries, j, name);
        PutAllStep([], before + DictPairs(col, v.entries[..j], name), (name(col + "_" + kk), vv));
        assert before + DictPairs(col, v.entries[..j + 1], name) ==
          before + DictPairs(col, v.entries[..j], name) + [(name(col + "_" + kk), vv)];
        out := Put(out, name(col + "_" + kk), vv);
        j := j + 1;
      }
      assert v.entries[..j] == v.entries;
    } else {
      PutAllStep([], before, (col, v));
      out := Put(out, col, v);
    }
  }

  lemma FlattenWithStep(stats: Stats, i: nat, prefix: string, name: string -> string)
    requires i < |stats|
    ensures FlattenWith(stats[..i + 1], prefix, name) ==
      FlattenWith(stats[..i], prefix, name) + EntryPairs(prefix, stats[i].0, stats[i].1, name)
  {
    assert stats[..i + 1][..i] == stats[..i];
  }

  lemma DictPairsStep(col: string, entries: Stats, j: nat, name: string -> string)
    requires j < |entries|
    ensures DictPairs(col, entries[..j + 1], name) ==
      DictPairs(col, entries[..j], name) + [(name(col + "_" + entries[j].0), entries[j].1)]
  {
  }

  lemma PutAllStep(d: Stats, pairs: Stats, p: (string, Value))
    ensures PutAll(d, pairs + [p]) == Put(PutAll(d, pairs), p.0, p.1)
  {
    assert (pairs + [p])[..|pairs|] == pairs;
  }

  /** Looking a key up after a series of assignments finds the last one made
      to it, or the original value when none was. */
  lemma {:induction false} PutAllLookup(d: Stats, pairs: Stats, key: string)
    ensures Lookup(PutAll(d, pairs), key) ==
      if LastWrite(pairs, key).Some? then LastWrite(pairs, key) else Lookup(d, key)
  {
    if pairs != [] {
      var init, last := pairs[..|pairs| - 1], pairs[|pairs| - 1];
      PutAllLookup(d, init, key);
      PutLookup(PutAll(d, init), last.0, last.1, key);
    }
  }

  /** Assignments to pairwise distinct keys build exactly the list of those
      assignments, in order. */
  lemma {:induction false} PutAllDistinct(pairs: Stats)
    requires DistinctKeys(pairs)
    ensures PutAll([], pairs) == pairs
  {
    if pairs != [] {
      var init, last := pairs[..|pairs| - 1], pairs[|pairs| - 1];
      PutAllDistinct(init);
      assert Lookup(init, last.0).None?;
      PutShape(init, last.0, last.1);
      assert pairs == init + [last];
    }
  }

  /** When every column name that `name` produces is clean, so is every key
      that flattening writes. */
  lemma {:induction false} FlattenWithClean(stats: Stats, prefix: string, name: string -> string)
    requires forall s :: Clean(name(s))
    ensures forall i :: 0 <= i < |FlattenWith(stats, prefix, name)| ==> Clean(FlattenWith(stats, prefix, name)[i].0)
  {
    if stats != [] {
      var last := stats[|stats| - 1];
      FlattenWithClean(stats[..|stats| - 1], prefix, name);
      var e := EntryPairs(prefix, last.0, last.1, name);
      var col := name(prefix + last.0);
      forall i | 0 <= i < |e| ensures Clean(e[i].0) {
        if last.1.Dict? {
          assert e[i].0 == name(col + "_" + last.1.entries[i].0);
        } else {
          assert e[i].0 == col;
        }
      }
    }
  }

  /** Every key that `flatten_stats` writes is a clean column name. */
  lemma FlattenPairsClean(stats: Stats, prefix: string)
    ensures forall i :: 0 <= i < |FlattenPairs(stats, prefix)| ==> Clean(FlattenPairs(stats, prefix)[i].0)
  {
    forall s ensures Clean(Sanitize(s)) {
      SanitizeIsClean(s);
    }
    FlattenWithClean(stats, prefix, Sanitize);
  }

  /** The result of `flatten_stats` has distinct keys, each one a clean column
      name (no space, no parenthesis), and a key holds the value of the last
      entry that was flattened onto it. */
  lemma FlattenStatsSpec(stats: Stats, prefix: string)
    ensures DistinctKeys(PutAll([], FlattenPairs(stats, prefix)))
    ensures forall i :: 0 <= i < |PutAll([], FlattenPairs(stats, prefix))| ==>
      Clean(PutAll([], FlattenPairs(stats, prefix))[i].0)
    ensures forall key :: Lookup(PutAll([], FlattenPairs(stats, prefix)), key) == LastWrite(FlattenPairs(stats, prefix), key)
  {
    var pairs := FlattenPairs(stats, prefix);
    var out := PutAll([], pairs);
    PutAllHasDistinctKeys(pairs);
    FlattenPairsClean(stats, prefix);
    forall key ensures Lookup(out, key) == LastWrite(pairs, key) {
      PutAllLookup([], pairs, key);
    }
    forall i | 0 <= i < |out| ensures Clean(out[i].0) {
      var key := out[i].0;
      assert Lookup(out, key).Some?;
      PutAllLookup([], pairs, key);
      var j :| 0 <= j < |pairs| && pairs[j] == (key, LastWrite(pairs, key).value);
    }
  }

  lemma {:induction false} PutAllHasDistinctKeys(pairs: Stats)
    ensures DistinctKeys(PutAll([], pairs))
  {
    if pairs != [] {
      var init, last := pairs[..|pairs| - 1], pairs[|pairs| - 1];
      PutAllHasDistinctKeys(init);
      PutDistinct(PutAll([], init), last.0, last.1);
    }
  }

  /** A scalar entry `k: v` is written once, under the sanitised `prefix + k`. */
  lemma FlattenScalarEntry(prefix: string, k: string, v: Value)
    requires !v.Dict?
    ensures FlattenPairs([(k, v)], prefix) == [(Sanitize(prefix + k), v)]
  {
    SingleEntry(prefix, k, v, Sanitize);
  }

  /** An inner dictionary is flattened one level: each of its entries `kk: vv`
      is written under the outer column name, an underscore and the sanitised
      `kk`, with `vv` stored as is, even when `vv` is itself a dictionary. */
  lemma FlattenDictEntry(prefix: string, k: string, entries: Stats)
    ensures |FlattenPairs([(k, Dict(entries))], prefix)| == |entries|
    ensures forall i :: 0 <= i < |entries| ==>
      FlattenPairs([(k, Dict(entries))], prefix)[i] ==
        (Sanitize(prefix + k) + "_" + Sanitize(entries[i].0), entries[i].1)
  {
    SingleEntry(prefix, k, Dict(entries), Sanitize);
    forall i | 0 <= i < |entries| {
      SanitizeJoin(prefix + k, entries[i].0);
    }
  }

  lemma SingleEntry(prefix: string, k: string, v: Value, name: string -> string)
    ensures FlattenWith([(k, v)], prefix, name) == EntryPairs(prefix, k, v, name)
  {
    assert [(k, v)][..0] == [];
  }

  /** Flattening a dictionary is flattening each entry in turn. */
  lemma {:induction false} FlattenWithConcat(a: Stats, b: Stats, prefix: string, name: string -> string)
    ensures FlattenWith(a + b, prefix, name) == FlattenWith(a, prefix, name) + FlattenWith(b, prefix, name)
  {
    if b == [] {
      assert a + b == a;
    } else {
      var init, last := b[..|b| - 1], b[|b| - 1];
      assert (a + b)[..|a + b| - 1] == a + init;
      assert (a + b)[|a + b| - 1] == last;
      FlattenWithConcat(a, init, prefix, name);
    }
  }
}
