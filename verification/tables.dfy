/** Constant lookup tables (`Record<string, V>` literals and `dict` literals) as association lists. */
module Tables {
  import opened Wrappers

  predicate HasKey<K(==), V>(table: seq<(K, V)>, key: K) {
    exists i :: 0 <= i < |table| && table[i].0 == key
  }

  predicate DistinctKeys<K(==), V>(table: seq<(K, V)>) {
    forall i, j :: 0 <= i < j < |table| ==> table[i].0 != table[j].0
  }

  /** The value of the first entry with `key`, if any. */
  function Lookup<K(==), V>(table: seq<(K, V)>, key: K): (r: Option<V>)
    ensures r.None? <==> !HasKey(table, key)
    ensures r.Some? ==> exists i :: 0 <= i < |table| && table[i] == (key, r.value)
    decreases |table|
  {
    if table == [] then None
    else if table[0].0 == key then Some(table[0].1)
    else
      var r := Lookup(table[1..], key);
      assert HasKey(table, key) ==> HasKey(table[1..], key) by {
        if HasKey(table, key) {
          var i :| 0 <= i < |table| && table[i].0 == key;
          assert table[1..][i - 1].0 == key;
        }
      }
      assert r.Some? ==> exists i :: 0 <= i < |table| && table[i] == (key, r.value) by {
        if r.Some? {
          var i :| 0 <= i < |table[1..]| && table[1..][i] == (key, r.value);
          assert table[i + 1] == (key, r.value);
        }
      }
      r
  }

  /** An entry whose key no earlier entry has is found under that key. */
  lemma {:induction false} LookupEntry<K, V>(table: seq<(K, V)>, i: int)
    requires 0 <= i < |table| && forall j :: 0 <= j < i ==> table[j].0 != table[i].0
    ensures Lookup(table, table[i].0) == Some(table[i].1)
    decreases |table|
  {
    if i > 0 {
      LookupEntry(table[1..], i - 1);
    }
  }

  function Keys<K, V>(table: seq<(K, V)>): (r: seq<K>)
    ensures |r| == |table| && forall i :: 0 <= i < |table| ==> r[i] == table[i].0
  {
    seq(|table|, i requires 0 <= i < |table| => table[i].0)
  }

  /** `xs.find(p)`: the first element satisfying `p`, if any. */
  function FindFirst<T>(s: seq<T>, p: T -> bool): (r: Option<T>)
    ensures r.None? <==> forall j :: 0 <= j < |s| ==> !p(s[j])
    ensures r.Some? ==> r.value in s && p(r.value)
    ensures s != [] && p(s[0]) ==> r == Some(s[0])
    ensures r.Some? ==> exists k :: 0 <= k < |s| && s[k] == r.value && p(s[k]) && forall j :: 0 <= j < k ==> !p(s[j])
    decreases |s|
  {
    if s == [] then None
    else if p(s[0]) then Some(s[0])
    else
      var r := FindFirst(s[1..], p);
      assert forall j :: 1 <= j < |s| ==> s[j] == s[1..][j - 1];
      FirstMatchShifts(s, p, r);
      r
  }

  /** A first match in the tail of `s`, past a head that does not match, is a first match in `s`. */
  lemma FirstMatchShifts<T>(s: seq<T>, p: T -> bool, r: Option<T>)
    requires s != [] && !p(s[0])
    requires r.Some? ==> exists k :: 0 <= k < |s[1..]| && s[1..][k] == r.value && p(s[1..][k])
                                     && forall j :: 0 <= j < k ==> !p(s[1..][j])
    ensures r.Some? ==> exists k :: 0 <= k < |s| && s[k] == r.value && p(s[k]) && forall j :: 0 <= j < k ==> !p(s[j])
  {
    if r.Some? {
      var k :| 0 <= k < |s[1..]| && s[1..][k] == r.value && p(s[1..][k]) && forall j :: 0 <= j < k ==> !p(s[1..][j]);
      assert forall j :: 1 <= j < k + 1 ==> s[j] == s[1..][j - 1];
      assert s[k + 1] == r.value && forall j :: 0 <= j < k + 1 ==> !p(s[j]);
    }
  }
}
