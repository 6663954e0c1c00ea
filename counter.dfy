/// `collections.Counter` as the statistics collector uses it: a dict from key
/// to count that remembers the order in which keys were first counted, `+= 1`
/// on a key, and `most_common`, which lists the entries by descending count,
/// entries with equal counts staying in first-counted order.
module Counter {
  import opened Records

  datatype Tally<K> = Tally(key: K, count: nat)

  function KeysOf<K>(c: seq<Tally<K>>): (ks: seq<K>)
    ensures |ks| == |c|
    ensures forall i :: 0 <= i < |c| ==> ks[i] == c[i].key
  {
    if c == [] then [] else [c[0].key] + KeysOf(c[1..])
  }

  /** Every key once, every count positive (a key enters with `+= 1`). */
  predicate Valid<K(==)>(c: seq<Tally<K>>) {
    && (forall i, j :: 0 <= i < j < |c| ==> c[i].key != c[j].key)
    && (forall i :: 0 <= i < |c| ==> c[i].count > 0)
  }

  /** `c[k]`: zero for a key that was never counted. */
  function Get<K(==)>(c: seq<Tally<K>>, k: K): (n: nat)
    ensures n == 0 <== k !in KeysOf(c)
  {
    if c == [] then 0
    else if c[0].key == k then c[0].count
    else Get(c[1..], k)
  }

  /** In a valid counter the count of a key is the one stored at its entry,
      and a key that is present has a positive count. */
  lemma {:induction false} GetAt<K>(c: seq<Tally<K>>, i: nat)
    requires Valid(c) && i < |c|
    ensures Get(c, c[i].key) == c[i].count > 0
  {
    if i > 0 {
      assert c[0].key != c[i].key;
      assert c[1..][i - 1] == c[i];
      GetAt(c[1..], i - 1);
    }
  }

  /** The sum of all counts. */
  function Total<K>(c: seq<Tally<K>>): nat {
    if c == [] then 0 else c[0].count + Total(c[1..])
  }

  /** `c[k] += 1`: a key not yet counted is appended with count one. */
  function Increment<K(==)>(c: seq<Tally<K>>, k: K): (r: seq<Tally<K>>)
    ensures Total(r) == Total(c) + 1
  {
    if c == [] then [Tally(k, 1)]
    else if c[0].key == k then [Tally(k, c[0].count + 1)] + c[1..]
    else
      var rest := Increment(c[1..], k);
      assert ([c[0]] + rest)[1..] == rest;
      [c[0]] + rest
  }

  /** Keys already counted keep their places; a new key goes last. */
  lemma {:induction false} IncrementKeys<K>(c: seq<Tally<K>>, k: K)
    ensures KeysOf(Increment(c, k)) == if k in KeysOf(c) then KeysOf(c) else KeysOf(c) + [k]
  {
    if c != [] {
      var ks1 := KeysOf(c[1..]);
      if c[0].key == k {
        assert Increment(c, k)[1..] == c[1..];
      } else {
        var rest := Increment(c[1..], k);
        IncrementKeys(c[1..], k);
        assert ([c[0]] + rest)[1..] == rest;
        if k !in ks1 {
          assert [c[0].key] + (ks1 + [k]) == ([c[0].key] + ks1) + [k];
        }
      }
    }
  }

  /** After `c[k] += 1` the count of `k` is one higher and every other
      count is unchanged. */
  lemma {:induction false} IncrementGet<K>(c: seq<Tally<K>>, k: K, j: K)
    ensures Get(Increment(c, k), j) == Get(c, j) + (if j == k then 1 else 0)
  {
    if c != [] && c[0].key != k {
      IncrementGet(c[1..], k, j);
    }
  }

  lemma {:induction false} IncrementKeepsPositive<K>(c: seq<Tally<K>>, k: K)
    requires forall i :: 0 <= i < |c| ==> c[i].count > 0
    ensures forall i :: 0 <= i < |Increment(c, k)| ==> Increment(c, k)[i].count > 0
  {
    if c != [] && c[0].key != k {
      IncrementKeepsPositive(c[1..], k);
      assert Increment(c, k) == [c[0]] + Increment(c[1..], k);
    }
  }

  /** Counting keeps every key once with a positive count. */
  lemma IncrementKeepsValid<K>(c: seq<Tally<K>>, k: K)
    requires Valid(c)
    ensures Valid(Increment(c, k))
  {
    var r := Increment(c, k);
    IncrementKeepsPositive(c, k);
    IncrementKeys(c, k);
    forall i, j | 0 <= i < j < |r|
      ensures r[i].key != r[j].key
    {
      assert r[i].key == KeysOf(r)[i] && r[j].key == KeysOf(r)[j];
      if j < |c| {
        assert KeysOf(r)[i] == c[i].key && KeysOf(r)[j] == c[j].key;
      } else {
        assert KeysOf(r)[i] == KeysOf(c)[i];
      }
    }
  }

  // ------------------------------------------------------------- most_common

  /** Highest counts first. */
  predicate Descending<K>(s: seq<Tally<K>>) {
    forall i, j :: 0 <= i < j < |s| ==> s[i].count >= s[j].count
  }

  /** The entries with count `n`, in order. */
  function WithCount<K>(s: seq<Tally<K>>, n: nat): seq<Tally<K>> {
    if s == [] then [] else (if s[0].count == n then [s[0]] else []) + WithCount(s[1..], n)
  }

  /** Places `t` before the first entry whose count is not higher. */
  function Insert<K>(t: Tally<K>, s: seq<Tally<K>>): seq<Tally<K>> {
    if s == [] || s[0].count <= t.count then [t] + s
    else [s[0]] + Insert(t, s[1..])
  }

  /** `sorted(c.items(), key=count, reverse=True)`: a stable sort on
      descending count. */
  function SortDesc<K>(c: seq<Tally<K>>): seq<Tally<K>> {
    if c == [] then [] else Insert(c[0], SortDesc(c[1..]))
  }

  lemma {:induction false} InsertDescending<K>(t: Tally<K>, s: seq<Tally<K>>)
    requires Descending(s)
    ensures Descending(Insert(t, s))
    ensures Insert(t, s)[0] == t || (s != [] && Insert(t, s)[0] == s[0])
  {
    if s != [] && s[0].count > t.count {
      var rest := Insert(t, s[1..]);
      InsertDescending(t, s[1..]);
      assert rest[0].count <= s[0].count by {
        if rest[0] != t {
          assert rest[0] == s[1];
        }
      }
      var r := [s[0]] + rest;
      forall i, j | 0 <= i < j < |r|
        ensures r[i].count >= r[j].count
      {
        if i == 0 {
          assert r[j] == rest[j - 1];
          if j > 1 {
            assert rest[0].count >= rest[j - 1].count;
          }
        } else {
          assert r[i] == rest[i - 1] && r[j] == rest[j - 1];
        }
      }
    }
  }

  lemma {:induction false} InsertPermutes<K>(t: Tally<K>, s: seq<Tally<K>>)
    ensures multiset(Insert(t, s)) == multiset(s) + multiset{t}
  {
    if s != [] && s[0].count > t.count {
      InsertPermutes(t, s[1..]);
      assert s == [s[0]] + s[1..];
    }
  }

  lemma {:induction false} InsertWithCount<K>(t: Tally<K>, s: seq<Tally<K>>, n: nat)
    requires Descending(s)
    ensures WithCount(Insert(t, s), n) == (if t.count == n then [t] else []) + WithCount(s, n)
  {
    if s == [] || s[0].count <= t.count {
      assert ([t] + s)[1..] == s;
    } else {
      var rest := Insert(t, s[1..]);
      InsertWithCount(t, s[1..], n);
      assert ([s[0]] + rest)[1..] == rest;
      assert WithCount(s, n) == (if s[0].count == n then [s[0]] else []) + WithCount(s[1..], n);
      if t.count == n {
        assert s[0].count != n;
      }
    }
  }

  lemma {:induction false} SortDescFacts<K>(c: seq<Tally<K>>, n: nat)
    ensures Descending(SortDesc(c))
    ensures multiset(SortDesc(c)) == multiset(c)
    ensures WithCount(SortDesc(c), n) == WithCount(c, n)
  {
    if c != [] {
      SortDescFacts(c[1..], n);
      InsertDescending(c[0], SortDesc(c[1..]));
      InsertPermutes(c[0], SortDesc(c[1..]));
      InsertWithCount(c[0], SortDesc(c[1..]), n);
      assert c == [c[0]] + c[1..];
    }
  }

  /** Inserting an entry whose key is new and whose count is positive keeps
      every key once with a positive count. */
  lemma {:induction false} InsertKeepsValid<K>(t: Tally<K>, s: seq<Tally<K>>)
    requires Valid(s) && t.count > 0
    requires forall i :: 0 <= i < |s| ==> s[i].key != t.key
    ensures Valid(Insert(t, s))
  {
    if s != [] && s[0].count > t.count {
      var rest := Insert(t, s[1..]);
      InsertKeepsValid(t, s[1..]);
      InsertPermutes(t, s[1..]);
      forall x | x in rest
        ensures x.key != s[0].key
      {
        assert x in multiset(rest);
        if x != t {
          assert x in multiset(s[1..]);
          var i :| 0 <= i < |s[1..]| && s[1..][i] == x;
          assert s[i + 1] == x;
        }
      }
      var r := [s[0]] + rest;
      forall i, j | 0 <= i < j < |r|
        ensures r[i].key != r[j].key
      {
        assert r[j] == rest[j - 1];
        if i > 0 {
          assert r[i] == rest[i - 1];
        }
      }
    }
  }

  /** Sorting keeps every key once with a positive count. */
  lemma {:induction false} SortDescKeepsValid<K>(c: seq<Tally<K>>)
    requires Valid(c)
    ensures Valid(SortDesc(c))
  {
    if c != [] {
      var s := SortDesc(c[1..]);
      SortDescKeepsValid(c[1..]);
      SortDescFacts(c[1..], 0);
      forall i | 0 <= i < |s|
        ensures s[i].key != c[0].key
      {
        assert s[i] in multiset(c[1..]);
        var j :| 0 <= j < |c[1..]| && c[1..][j] == s[i];
        assert c[j + 1] == s[i];
      }
      InsertKeepsValid(c[0], s);
    }
  }

  /** `c.most_common(n)`, or `c.most_common()` for `None`. */
  function MostCommon<K>(c: seq<Tally<K>>, n: Option<nat>): seq<Tally<K>> {
    var s := SortDesc(c);
    match n
    case None => s
    case Some(m) => if m < |s| then s[..m] else s
  }

  /** `most_common` lists every entry once in the full listing and the first
      `n` of it otherwise, highest count first, entries with the same count
      in first-counted order. */
  lemma MostCommonOrder<K>(c: seq<Tally<K>>, n: Option<nat>)
    ensures var r := MostCommon(c, n);
      && Descending(r)
      && |r| == (if n.Some? && n.value < |c| then n.value else |c|)
      && r == SortDesc(c)[..|r|]
      && (n.None? ==> multiset(r) == multiset(c))
      && (forall k :: WithCount(SortDesc(c), k) == WithCount(c, k))
  {
    forall k: nat
      ensures WithCount(SortDesc(c), k) == WithCount(c, k)
    {
      SortDescFacts(c, k);
    }
    SortDescFacts(c, 0);
    assert |SortDesc(c)| == |multiset(SortDesc(c))| == |c|;
  }

  /** A valid counter's `most_common` listing holds each key once, each with
      a positive count. */
  lemma MostCommonKeepsValid<K>(c: seq<Tally<K>>, n: Option<nat>)
    requires Valid(c)
    ensures Valid(MostCommon(c, n))
  {
    var s := SortDesc(c);
    SortDescKeepsValid(c);
    var r := MostCommon(c, n);
    assert r == s[..|r|];
    forall i, j | 0 <= i < j < |r|
      ensures r[i].key != r[j].key
    {
      assert r[i] == s[i] && r[j] == s[j];
    }
  }
}
