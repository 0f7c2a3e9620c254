/** `cache_key`: the Redis key built from a prefix, the positional arguments in call order and the
    keyword arguments sorted by name, all joined with `:`. Arguments appear already rendered with
    `str`, which is not part of this model. */
module CacheKey {
  import opened Text
  import Seqs

  /** A keyword argument: its name and its value rendered with `str`. */
  datatype Kwarg = Kwarg(name: string, value: string)

  predicate SortedByName(ks: seq<Kwarg>) {
    forall i, j :: 0 <= i < j < |ks| ==> LexLessEq(ks[i].name, ks[j].name)
  }

  /** Entries sharing a name are the same entry: true of Python keyword arguments, which never
      repeat a name. */
  predicate NameDetermines(ks: seq<Kwarg>) {
    forall x, y :: x in ks && y in ks && x.name == y.name ==> x == y
  }

  lemma ConsSorted(x: Kwarg, s: seq<Kwarg>)
    requires SortedByName(s)
    requires forall j :: 0 <= j < |s| ==> LexLessEq(x.name, s[j].name)
    ensures SortedByName([x] + s)
  {
    var r := [x] + s;
    forall i, j | 0 <= i < j < |r| ensures LexLessEq(r[i].name, r[j].name) {
      assert r[j] == s[j - 1];
      if i > 0 {
        assert r[i] == s[i - 1];
      }
    }
  }

  /** Inserts `k` before the first entry whose name is not smaller. */
  function InsertByName(k: Kwarg, ks: seq<Kwarg>): (r: seq<Kwarg>)
    requires SortedByName(ks)
    ensures SortedByName(r)
    ensures multiset(r) == multiset(ks) + multiset{k}
    decreases |ks|
  {
    if ks == [] then [k]
    else if LexLessEq(k.name, ks[0].name) then
      assert forall j :: 0 <= j < |ks| ==> LexLessEq(k.name, ks[j].name) by {
        forall j | 0 <= j < |ks| ensures LexLessEq(k.name, ks[j].name) {
          LexLessEqTransitive(k.name, ks[0].name, ks[j].name);
        }
      }
      ConsSorted(k, ks);
      [k] + ks
    else
      var rest := InsertByName(k, ks[1..]);
      assert ks == [ks[0]] + ks[1..];
      LexLessTotal(k.name, ks[0].name);
      assert forall j :: 0 <= j < |rest| ==> LexLessEq(ks[0].name, rest[j].name) by {
        forall j | 0 <= j < |rest| ensures LexLessEq(ks[0].name, rest[j].name) {
          assert rest[j] in multiset(rest);
          if rest[j] != k {
            assert rest[j] in multiset(ks[1..]);
            var m :| 0 <= m < |ks[1..]| && ks[1..][m] == rest[j];
            assert ks[m + 1] == rest[j];
          }
        }
      }
      ConsSorted(ks[0], rest);
      [ks[0]] + rest
  }

  /** `sorted(kwargs.items())`, by name (names are distinct, so values never decide). */
  function SortByName(ks: seq<Kwarg>): (r: seq<Kwarg>)
    ensures SortedByName(r)
    ensures multiset(r) == multiset(ks)
    decreases |ks|
  {
    if ks == [] then []
    else
      assert ks == [ks[0]] + ks[1..];
      InsertByName(ks[0], SortByName(ks[1..]))
  }

  lemma TailFacts(a: seq<Kwarg>, b: seq<Kwarg>)
    requires |a| > 0 && |b| > 0 && a[0] == b[0] && multiset(a) == multiset(b)
    requires SortedByName(a) && SortedByName(b) && NameDetermines(a)
    ensures multiset(a[1..]) == multiset(b[1..])
    ensures SortedByName(a[1..]) && SortedByName(b[1..]) && NameDetermines(a[1..])
  {
    assert a == [a[0]] + a[1..] && b == [b[0]] + b[1..];
    assert multiset(a) == multiset{a[0]} + multiset(a[1..]);
    assert multiset(b) == multiset{b[0]} + multiset(b[1..]);
    forall y ensures multiset(a[1..])[y] == multiset(b[1..])[y] {
      assert multiset(a)[y] == multiset{a[0]}[y] + multiset(a[1..])[y];
      assert multiset(b)[y] == multiset{a[0]}[y] + multiset(b[1..])[y];
    }
    assert forall x :: x in a[1..] ==> x in a;
  }

  /** Two name-sorted lists with the same entries, where a name determines its entry, are equal. */
  lemma {:induction false} SortedUnique(a: seq<Kwarg>, b: seq<Kwarg>)
    requires SortedByName(a) && SortedByName(b)
    requires multiset(a) == multiset(b) && NameDetermines(a)
    ensures a == b
    decreases |a|
  {
    if a == [] {
      assert |multiset(b)| == 0;
    } else {
      assert |b| == |a| by { assert |multiset(b)| == |multiset(a)|; }
      assert b[0] in multiset(a) && a[0] in multiset(b);
      var i :| 0 <= i < |a| && a[i] == b[0];
      var j :| 0 <= j < |b| && b[j] == a[0];
      assert LexLessEq(a[0].name, a[i].name) && LexLessEq(b[0].name, b[j].name);
      LexLessEqAntisymmetric(a[0].name, b[0].name);
      assert a[0] == b[0];
      TailFacts(a, b);
      SortedUnique(a[1..], b[1..]);
      assert a == [a[0]] + a[1..] && b == [b[0]] + b[1..];
    }
  }

  function Render(k: Kwarg): string {
    k.name + ":" + k.value
  }

  /** `key_parts`: the prefix, then the positional arguments, then `name:value` per sorted keyword. */
  function Parts(prefix: string, args: seq<string>, kwargs: seq<Kwarg>): (r: seq<string>)
    ensures |r| == 1 + |args| + |kwargs| && r[0] == prefix
    ensures r[1..1 + |args|] == args
    ensures exists sorted: seq<Kwarg> :: SortedByName(sorted) && multiset(sorted) == multiset(kwargs)
              && r[1 + |args|..] == Seqs.Map(sorted, Render)
  {
    var sorted := SortByName(kwargs);
    assert |sorted| == |multiset(sorted)| == |kwargs|;
    var r := [prefix] + args + Seqs.Map(sorted, Render);
    assert r[1..1 + |args|] == args;
    assert r[1 + |args|..] == Seqs.Map(sorted, Render);
    r
  }

  /** `cache_key(prefix, *args, **kwargs)`. */
  function Key(prefix: string, args: seq<string>, kwargs: seq<Kwarg>): (r: string)
    ensures StartsWith(r, prefix)
    ensures args == [] && kwargs == [] ==> r == prefix
  {
    JoinStartsWith(Parts(prefix, args, kwargs), ":");
    Join(Parts(prefix, args, kwargs), ":")
  }

  /** The key does not depend on the order the keyword arguments were passed in. */
  lemma KwargOrderIrrelevant(prefix: string, args: seq<string>, a: seq<Kwarg>, b: seq<Kwarg>)
    requires multiset(a) == multiset(b) && NameDetermines(a)
    ensures Key(prefix, args, a) == Key(prefix, args, b)
  {
    var sa, sb := SortByName(a), SortByName(b);
    assert forall x :: x in sa <==> x in a by {
      forall x ensures x in sa <==> x in a {
        assert x in sa <==> x in multiset(sa);
        assert x in a <==> x in multiset(a);
      }
    }
    SortedUnique(sa, sb);
  }

  /** Without keyword arguments, and with no `:` inside the prefix or any argument, splitting the
      key on `:` gives back the prefix followed by the arguments in call order. */
  lemma PositionalRoundTrip(prefix: string, args: seq<string>)
    requires ':' !in prefix && forall i :: 0 <= i < |args| ==> ':' !in args[i]
    ensures Split(Key(prefix, args, []), ':') == [prefix] + args
  {
    var parts := Parts(prefix, args, []);
    assert parts == [prefix] + args;
    SplitJoin(parts, ':');
  }
}
