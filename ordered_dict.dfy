/** The `OrderedDict` pattern of the batch loaders: keys are registered in
    first-insertion order, a later assignment to a key overwrites its value
    without moving it, and the values are read back in key order. */
module OrderedDict {
  import opened Common

  predicate Distinct(s: seq<string>)
  {
    forall i, j :: 0 <= i < j < |s| ==> s[i] != s[j]
  }

  /** The keys of `s` in first-occurrence order. */
  function Dedup(s: seq<string>): (r: seq<string>)
    ensures forall x :: x in r <==> x in s
    ensures Distinct(r)
    ensures |r| <= |s|
  {
    if s == [] then []
    else
      var p := Dedup(s[..|s| - 1]);
      if s[|s| - 1] in p then p else p + [s[|s| - 1]]
  }

  lemma {:induction false} DedupOfDistinct(s: seq<string>)
    requires Distinct(s)
    ensures Dedup(s) == s
  {
    if s != [] {
      var n := |s| - 1;
      DedupOfDistinct(s[..n]);
      assert s[n] !in s[..n];
      assert s == s[..n] + [s[n]];
    }
  }

  /** Keys already present do not add positions. */
  lemma {:induction false} DedupAbsorbs(a: seq<string>, b: seq<string>)
    requires forall x :: x in b ==> x in a
    ensures Dedup(a + b) == Dedup(a)
    decreases |b|
  {
    if b != [] {
      var n := |b| - 1;
      assert (a + b)[..|a + b| - 1] == a + b[..n];
      DedupAbsorbs(a, b[..n]);
    } else {
      assert a + b == a;
    }
  }

  /** The keys of the rows that the query returns, in row order. */
  function KeysOf<R(!new)>(rows: seq<R>, keyOf: R -> string, selected: R -> bool): seq<string>
  {
    if rows == [] then []
    else
      var n := |rows| - 1;
      KeysOf(rows[..n], keyOf, selected) + (if selected(rows[n]) then [keyOf(rows[n])] else [])
  }

  /** Every key listed comes from a returned row. */
  lemma {:induction false} KeysOfMembers<R(!new)>(rows: seq<R>, keyOf: R -> string, selected: R -> bool)
    ensures forall k :: k in KeysOf(rows, keyOf, selected) ==> exists row :: row in rows && selected(row) && keyOf(row) == k
  {
    if rows != [] {
      var n := |rows| - 1;
      KeysOfMembers(rows[..n], keyOf, selected);
      assert forall row :: row in rows[..n] ==> row in rows;
    }
  }

  /** The value left under key `k`: the last returned row with that key. */
  function LastWith<R(!new)>(rows: seq<R>, keyOf: R -> string, selected: R -> bool, k: string): (r: Option<R>)
    ensures r.Some? ==> r.value in rows && selected(r.value) && keyOf(r.value) == k
    ensures r.None? ==> forall row :: row in rows && selected(row) ==> keyOf(row) != k
  {
    if rows == [] then None
    else
      var n := |rows| - 1;
      if selected(rows[n]) && keyOf(rows[n]) == k then Some(rows[n])
      else
        assert rows == rows[..n] + [rows[n]];
        LastWith(rows[..n], keyOf, selected, k)
  }

  /** The values of the dictionary after registering `keys0` with None and
      assigning every returned row under its key. */
  function Collected<R(!new)>(keys0: seq<string>, rows: seq<R>, keyOf: R -> string, selected: R -> bool): (r: seq<Option<R>>)
  {
    var ks := Dedup(keys0 + KeysOf(rows, keyOf, selected));
    seq(|ks|, i requires 0 <= i < |ks| => LastWith(rows, keyOf, selected, ks[i]))
  }

  lemma DedupSnoc(s: seq<string>, x: string)
    ensures Dedup(s + [x]) == if x in s then Dedup(s) else Dedup(s) + [x]
  {
    assert (s + [x])[..|s|] == s;
  }

  lemma KeysStep<R(!new)>(rows: seq<R>, j: nat, keyOf: R -> string, selected: R -> bool)
    requires j < |rows|
    ensures KeysOf(rows[..j + 1], keyOf, selected) ==
      KeysOf(rows[..j], keyOf, selected) + (if selected(rows[j]) then [keyOf(rows[j])] else [])
  {
    assert rows[..j + 1][..j] == rows[..j];
  }

  lemma LastStep<R(!new)>(rows: seq<R>, j: nat, keyOf: R -> string, selected: R -> bool, k: string)
    requires j < |rows|
    ensures LastWith(rows[..j + 1], keyOf, selected, k) ==
      (if selected(rows[j]) && keyOf(rows[j]) == k then Some(rows[j]) else LastWith(rows[..j], keyOf, selected, k))
  {
    var p := rows[..j + 1];
    assert p[..|p| - 1] == rows[..j];
    assert p[|p| - 1] == rows[j];
  }

  /** `for k in keys: objs_per_key[k] = None` */
  method RegisterKeys<R>(keys0: seq<string>) returns (keys: seq<string>, m: map<string, Option<R>>)
    ensures keys == Dedup(keys0)
    ensures forall k :: k in m <==> k in keys
    ensures forall k :: k in m ==> m[k].None?
  {
    keys, m := [], map[];
    var i := 0;
    while i < |keys0|
      invariant 0 <= i <= |keys0|
      invariant keys == Dedup(keys0[..i])
      invariant forall k :: k in m <==> k in keys
      invariant forall k :: k in m ==> m[k].None?
    {
      assert keys0[..i + 1] == keys0[..i] + [keys0[i]];
      DedupSnoc(keys0[..i], keys0[i]);
      if keys0[i] !in m {
        keys := keys + [keys0[i]];
      }
      m := m[keys0[i] := None];
      i := i + 1;
    }
    assert keys0[..i] == keys0;
  }

  /** `for row in rows: objs_per_key[key(row)] = row` */
  method AssignRows<R(!new)>(keys0: seq<string>, rows: seq<R>, keyOf: R -> string, selected: R -> bool)
    returns (keys: seq<string>, m: map<string, Option<R>>)
    ensures keys == Dedup(keys0 + KeysOf(rows, keyOf, selected))
    ensures forall k :: k in m <==> k in keys
    ensures forall k :: k in m ==> m[k] == LastWith(rows, keyOf, selected, k)
  {
    keys, m := RegisterKeys(keys0);
    assert keys0 == keys0 + KeysOf(rows[..0], keyOf, selected);
    var j := 0;
    while j < |rows|
      invariant 0 <= j <= |rows|
      invariant keys == Dedup(keys0 + KeysOf(rows[..j], keyOf, selected))
      invariant forall k :: k in m <==> k in keys
      invariant forall k :: k in m ==> m[k] == LastWith(rows[..j], keyOf, selected, k)
    {
      keys, m := AssignOne(keys0, rows, j, keyOf, selected, keys, m);
      j := j + 1;
    }
    assert rows[..j] == rows;
  }

  /** One assignment `objs_per_key[key(row)] = row`. */
  method AssignOne<R(!new)>(keys0: seq<string>, rows: seq<R>, j: nat, keyOf: R -> string, selected: R -> bool,
                            keys: seq<string>, m: map<string, Option<R>>)
    returns (keys': seq<string>, m': map<string, Option<R>>)
    requires j < |rows|
    requires keys == Dedup(keys0 + KeysOf(rows[..j], keyOf, selected))
    requires forall k :: k in m <==> k in keys
    requires forall k :: k in m ==> m[k] == LastWith(rows[..j], keyOf, selected, k)
    ensures keys' == Dedup(keys0 + KeysOf(rows[..j + 1], keyOf, selected))
    ensures forall k :: k in m' <==> k in keys'
    ensures forall k :: k in m' ==> m'[k] == LastWith(rows[..j + 1], keyOf, selected, k)
  {
    var row := rows[j];
    KeysStep(rows, j, keyOf, selected);
    var before := keys0 + KeysOf(rows[..j], keyOf, selected);
    keys', m' := keys, m;
    if selected(row) {
      var k := keyOf(row);
      assert keys0 + KeysOf(rows[..j + 1], keyOf, selected) == before + [k];
      DedupSnoc(before, k);
      if k !in m {
        keys' := keys + [k];
      }
      m' := m[k := Some(row)];
    } else {
      assert keys0 + KeysOf(rows[..j + 1], keyOf, selected) == before;
    }
    ValuesStep(rows, j, keyOf, selected, m, m');
  }

  lemma ValuesStep<R(!new)>(rows: seq<R>, j: nat, keyOf: R -> string, selected: R -> bool,
                            m: map<string, Option<R>>, m': map<string, Option<R>>)
    requires j < |rows|
    requires forall k :: k in m ==> m[k] == LastWith(rows[..j], keyOf, selected, k)
    requires m' == if selected(rows[j]) then m[keyOf(rows[j]) := Some(rows[j])] else m
    ensures forall k :: k in m' ==> m'[k] == LastWith(rows[..j + 1], keyOf, selected, k)
  {
    forall k | k in m' ensures m'[k] == LastWith(rows[..j + 1], keyOf, selected, k) {
      LastStep(rows, j, keyOf, selected, k);
    }
  }

  /** `[*objs_per_key.values()]`, filled as the loaders fill it. */
  method Collect<R(!new)>(keys0: seq<string>, rows: seq<R>, keyOf: R -> string, selected: R -> bool)
    returns (values: seq<Option<R>>)
    ensures values == Collected(keys0, rows, keyOf, selected)
  {
    var keys, m := AssignRows(keys0, rows, keyOf, selected);
    values := [];
    var t := 0;
    while t < |keys|
      invariant 0 <= t <= |keys|
      invariant |values| == t
      invariant forall u :: 0 <= u < t ==> values[u] == LastWith(rows, keyOf, selected, keys[u])
    {
      values := values + [m[keys[t]]];
      t := t + 1;
    }
  }

  /** A batch loader whose query only returns rows for requested keys gives
      one slot per distinct requested key, in first-request order, holding
      the row with that key or None. */
  lemma BatchShape<R(!new)>(keys0: seq<string>, rows: seq<R>, keyOf: R -> string, selected: R -> bool)
    requires forall row :: row in rows && selected(row) ==> keyOf(row) in keys0
    ensures var r := Collected(keys0, rows, keyOf, selected);
      |r| == |Dedup(keys0)| &&
      forall i :: 0 <= i < |r| ==> r[i] == LastWith(rows, keyOf, selected, Dedup(keys0)[i])
  {
    KeysOfMembers(rows, keyOf, selected);
    DedupAbsorbs(keys0, KeysOf(rows, keyOf, selected));
  }

  /** With distinct requested keys that is exactly one slot per request. */
  lemma BatchShapeDistinct<R(!new)>(keys0: seq<string>, rows: seq<R>, keyOf: R -> string, selected: R -> bool)
    requires Distinct(keys0)
    requires forall row :: row in rows && selected(row) ==> keyOf(row) in keys0
    ensures var r := Collected(keys0, rows, keyOf, selected);
      |r| == |keys0| &&
      forall i :: 0 <= i < |r| ==> r[i] == LastWith(rows, keyOf, selected, keys0[i])
  {
    BatchShape(keys0, rows, keyOf, selected);
    DedupOfDistinct(keys0);
  }

  /** Without registered keys every value comes from a row: one entry per
      distinct key of the returned rows. */
  lemma RowsOnlyShape<R(!new)>(rows: seq<R>, keyOf: R -> string, selected: R -> bool)
    ensures var r := Collected([], rows, keyOf, selected);
      var ks := Dedup(KeysOf(rows, keyOf, selected));
      |r| == |ks| && forall i :: 0 <= i < |r| ==> r[i].Some? && keyOf(r[i].value) == ks[i]
  {
    var ks := KeysOf(rows, keyOf, selected);
    assert [] + ks == ks;
    KeysOfMembers(rows, keyOf, selected);
    forall i | 0 <= i < |Dedup(ks)| ensures LastWith(rows, keyOf, selected, Dedup(ks)[i]).Some? {
      var k := Dedup(ks)[i];
      assert k in ks;
    }
  }
}
