/** Rows keyed by an id, as the sync service handles them: the JavaScript `Map` built
    from `rows.map(r => [id(r), r])` (keys in first-insertion order, each holding the
    last row set for it), and a store table after an upsert on the id column. */
module KeyedRows {
  import opened Wrappers
  import opened Tally

  lemma KeysSnoc<T>(s: seq<T>, key: T -> string)
    requires |s| > 0
    ensures MapSeq(s, key) == MapSeq(s[..|s| - 1], key) + [key(s[|s| - 1])]
  {
  }

  /** The last element of `s` whose key is `k`. */
  function LastWithKey<T>(s: seq<T>, key: T -> string, k: string): (r: Option<T>)
    ensures r.None? <==> k !in MapSeq(s, key)
    ensures r.Some? ==> key(r.value) == k
  {
    if |s| == 0 then None
    else
      KeysSnoc(s, key);
      if key(s[|s| - 1]) == k then Some(s[|s| - 1])
      else LastWithKey(s[..|s| - 1], key, k)
  }

  /** The position of the element with key `k` in `acc`, or -1. */
  function FindKey<T>(acc: seq<T>, key: T -> string, k: string): (i: int)
    ensures -1 <= i < |acc|
    ensures i >= 0 ==> key(acc[i]) == k
    ensures i == -1 ==> k !in MapSeq(acc, key)
  {
    if |acc| == 0 then -1
    else
      KeysSnoc(acc, key);
      if key(acc[|acc| - 1]) == k then |acc| - 1
      else FindKey(acc[..|acc| - 1], key, k)
  }

  /** `map.set(key(x), x)`: an existing key keeps its place and takes the new row; a
      new key goes last. */
  function MapSet<T>(acc: seq<T>, x: T, key: T -> string): seq<T> {
    var i := FindKey(acc, key, key(x));
    if i >= 0 then acc[i := x] else acc + [x]
  }

  /** `Array.from(new Map(rows.map(r => [key(r), r])).values())`. */
  function Dedupe<T>(s: seq<T>, key: T -> string): (r: seq<T>)
    ensures MapSeq(r, key) == Distinct(MapSeq(s, key))
    ensures forall i :: 0 <= i < |r| ==> LastWithKey(s, key, key(r[i])) == Some(r[i])
    decreases |s|, 1
  {
    if |s| == 0 then []
    else
      DedupeStep(s, key);
      MapSet(Dedupe(s[..|s| - 1], key), s[|s| - 1], key)
  }

  /** Setting one more row keeps the keys those of `Distinct` and each value the last row. */
  lemma DedupeStep<T>(s: seq<T>, key: T -> string)
    requires |s| > 0
    ensures var r := MapSet(Dedupe(s[..|s| - 1], key), s[|s| - 1], key);
            && MapSeq(r, key) == Distinct(MapSeq(s, key))
            && forall i :: 0 <= i < |r| ==> LastWithKey(s, key, key(r[i])) == Some(r[i])
    decreases |s|, 0
  {
    var acc := Dedupe(s[..|s| - 1], key);
    if FindKey(acc, key, key(s[|s| - 1])) >= 0 {
      SetExistingKey(s, key, acc);
    } else {
      SetNewKey(s, key, acc);
    }
  }

  /** The de-duplicated prefix: the distinct keys of all rows but the last, each holding
      its last row. */
  ghost predicate DedupedPrefix<T>(s: seq<T>, key: T -> string, acc: seq<T>)
    requires |s| > 0
  {
    && MapSeq(acc, key) == Distinct(MapSeq(s[..|s| - 1], key))
    && forall i :: 0 <= i < |acc| ==> LastWithKey(s[..|s| - 1], key, key(acc[i])) == Some(acc[i])
  }

  /** A last row whose key was seen before replaces that key's row in place. */
  lemma SetExistingKey<T>(s: seq<T>, key: T -> string, acc: seq<T>)
    requires |s| > 0 && DedupedPrefix(s, key, acc)
    requires FindKey(acc, key, key(s[|s| - 1])) >= 0
    ensures var r := MapSet(acc, s[|s| - 1], key);
            && MapSeq(r, key) == Distinct(MapSeq(s, key))
            && forall i :: 0 <= i < |r| ==> LastWithKey(s, key, key(r[i])) == Some(r[i])
  {
    var init := s[..|s| - 1];
    var x := s[|s| - 1];
    KeysSnoc(s, key);
    var i := FindKey(acc, key, key(x));
    assert key(x) in MapSeq(acc, key);
    DistinctMembership(MapSeq(init, key), key(x));
    var r := acc[i := x];
    assert MapSeq(r, key) == MapSeq(acc, key);
    forall j | 0 <= j < |r|
      ensures LastWithKey(s, key, key(r[j])) == Some(r[j])
    {
      if j != i {
        assert MapSeq(acc, key)[j] != MapSeq(acc, key)[i];
      }
    }
  }

  /** A last row with a key not seen before goes at the end. */
  lemma SetNewKey<T>(s: seq<T>, key: T -> string, acc: seq<T>)
    requires |s| > 0 && DedupedPrefix(s, key, acc)
    requires FindKey(acc, key, key(s[|s| - 1])) < 0
    ensures var r := MapSet(acc, s[|s| - 1], key);
            && MapSeq(r, key) == Distinct(MapSeq(s, key))
            && forall i :: 0 <= i < |r| ==> LastWithKey(s, key, key(r[i])) == Some(r[i])
  {
    var init := s[..|s| - 1];
    var x := s[|s| - 1];
    KeysSnoc(s, key);
    DistinctMembership(MapSeq(init, key), key(x));
    var r := acc + [x];
    assert MapSeq(r, key) == MapSeq(acc, key) + [key(x)];
    forall j | 0 <= j < |acc|
      ensures LastWithKey(s, key, key(r[j])) == Some(r[j])
    {
      assert MapSeq(acc, key)[j] in MapSeq(acc, key);
    }
  }

  /** A key is among the distinct keys exactly when it is among the keys. */
  lemma DistinctMembership(ks: seq<string>, k: string)
    ensures k in Distinct(ks) <==> k in ks
  {
    if k in ks {
      var j :| 0 <= j < |ks| && ks[j] == k;
    }
    if k in Distinct(ks) {
      var j :| 0 <= j < |Distinct(ks)| && Distinct(ks)[j] == k;
    }
  }

  /** The table after upserting `s` on the key column, one row after the other: a key
      already present is overwritten, a new key is added. */
  function UpsertAll<T>(table: map<string, T>, s: seq<T>, key: T -> string): (m: map<string, T>)
    ensures forall k :: k in m <==> k in table || k in MapSeq(s, key)
    ensures forall k :: k in m ==>
              m[k] == (match LastWithKey(s, key, k) case Some(x) => x case None => table[k])
  {
    if |s| == 0 then table
    else
      KeysSnoc(s, key);
      UpsertAll(table, s[..|s| - 1], key)[key(s[|s| - 1]) := s[|s| - 1]]
  }

  /** In a sequence whose keys are distinct, each element is the last one with its key. */
  lemma {:induction false} LastWithKeyDistinct<T>(r: seq<T>, key: T -> string, i: nat)
    requires NoDuplicates(MapSeq(r, key)) && i < |r|
    ensures LastWithKey(r, key, key(r[i])) == Some(r[i])
    decreases |r|
  {
    if i < |r| - 1 {
      assert MapSeq(r, key)[i] != MapSeq(r, key)[|r| - 1];
      KeysSnoc(r, key);
      LastWithKeyDistinct(r[..|r| - 1], key, i);
    }
  }

  /** De-duplicating a batch does not change what upserting it stores: the last row for
      each key wins either way. */
  lemma UpsertDedupeSame<T>(table: map<string, T>, s: seq<T>, key: T -> string)
    ensures UpsertAll(table, Dedupe(s, key), key) == UpsertAll(table, s, key)
  {
    var a := UpsertAll(table, Dedupe(s, key), key);
    var b := UpsertAll(table, s, key);
    forall k
      ensures (k in a <==> k in b) && (k in a ==> a[k] == b[k])
    {
      DistinctMembership(MapSeq(s, key), k);
      DedupeLastWithKey(s, key, k);
    }
  }

  /** The de-duplicated rows and the original rows agree on the last row of every key. */
  lemma DedupeLastWithKey<T>(s: seq<T>, key: T -> string, k: string)
    ensures LastWithKey(Dedupe(s, key), key, k) == LastWithKey(s, key, k)
  {
    var d := Dedupe(s, key);
    DistinctMembership(MapSeq(s, key), k);
    if k in MapSeq(d, key) {
      var i :| 0 <= i < |d| && MapSeq(d, key)[i] == k;
      LastWithKeyDistinct(d, key, i);
    }
  }

}
