/**
 * A JavaScript plain object used as a string-to-string dictionary (the
 * `specs` objects of the catalog): an insertion-ordered list of entries with
 * distinct keys. Assigning an existing key changes its value in place;
 * assigning a new key appends it.
 */
module SpecMap {
  import opened Wrappers

  datatype Entry = Entry(key: string, value: string)

  type Specs = seq<Entry>

  predicate UniqueKeys(m: Specs) {
    forall i, j :: 0 <= i < j < |m| ==> m[i].key != m[j].key
  }

  /** `m[k]`: the value of the first entry with key `k`. */
  function Get(m: Specs, k: string): Option<string> {
    if m == [] then None
    else if m[0].key == k then Some(m[0].value)
    else Get(m[1..], k)
  }

  predicate Has(m: Specs, k: string) { Get(m, k).Some? }

  lemma GetSome(m: Specs, k: string)
    ensures Has(m, k) <==> exists i :: 0 <= i < |m| && m[i].key == k
  {
    if m != [] && m[0].key != k {
      GetSome(m[1..], k);
      if exists i :: 0 <= i < |m| && m[i].key == k {
        var i :| 0 <= i < |m| && m[i].key == k;
        assert m[1..][i - 1].key == k;
      }
    }
  }

  lemma GetAt(m: Specs, i: nat)
    requires UniqueKeys(m) && i < |m|
    ensures Get(m, m[i].key) == Some(m[i].value)
  {
    if i > 0 {
      GetAt(m[1..], i - 1);
    }
  }

  function KeysOf(m: Specs): (r: seq<string>)
    ensures |r| == |m| && forall i :: 0 <= i < |m| ==> r[i] == m[i].key
  {
    if m == [] then [] else [m[0].key] + KeysOf(m[1..])
  }

  /** `m[k] = v`. */
  function Put(m: Specs, k: string, v: string): Specs {
    if m == [] then [Entry(k, v)]
    else if m[0].key == k then [Entry(k, v)] + m[1..]
    else [m[0]] + Put(m[1..], k, v)
  }

  /** Assignment sets `k`, leaves every other key alone, and keeps the key order. */
  lemma PutFacts(m: Specs, k: string, v: string)
    ensures Get(Put(m, k, v), k) == Some(v)
    ensures forall k' :: k' != k ==> Get(Put(m, k, v), k') == Get(m, k')
    ensures KeysOf(Put(m, k, v)) == if Has(m, k) then KeysOf(m) else KeysOf(m) + [k]
    ensures UniqueKeys(m) ==> UniqueKeys(Put(m, k, v))
  {
    PutGet(m, k, v);
    forall k' | k' != k ensures Get(Put(m, k, v), k') == Get(m, k') {
      PutOther(m, k, v, k');
    }
    PutKeys(m, k, v);
    if UniqueKeys(m) {
      PutUnique(m, k, v);
    }
  }

  lemma {:induction false} PutGet(m: Specs, k: string, v: string)
    ensures Get(Put(m, k, v), k) == Some(v)
  {
    if m != [] && m[0].key != k {
      PutGet(m[1..], k, v);
    }
  }

  lemma {:induction false} PutOther(m: Specs, k: string, v: string, k': string)
    requires k' != k
    ensures Get(Put(m, k, v), k') == Get(m, k')
  {
    if m != [] && m[0].key != k {
      PutOther(m[1..], k, v, k');
    }
  }

  lemma {:induction false} PutKeys(m: Specs, k: string, v: string)
    ensures KeysOf(Put(m, k, v)) == if Has(m, k) then KeysOf(m) else KeysOf(m) + [k]
  {
    if m != [] && m[0].key != k {
      PutKeys(m[1..], k, v);
      assert KeysOf(Put(m, k, v)) == [m[0].key] + KeysOf(Put(m[1..], k, v));
    }
  }

  lemma PutUnique(m: Specs, k: string, v: string)
    requires UniqueKeys(m)
    ensures UniqueKeys(Put(m, k, v))
  {
    PutKeys(m, k, v);
    var r := Put(m, k, v);
    var ks := KeysOf(r);
    if !Has(m, k) {
      GetSome(m, k);
      assert ks == KeysOf(m) + [k];
      forall i, j | 0 <= i < j < |r| ensures r[i].key != r[j].key {
        assert r[i].key == ks[i] && r[j].key == ks[j];
        if j < |m| {
          assert ks[i] == m[i].key && ks[j] == m[j].key;
        } else {
          assert ks[i] == m[i].key;
        }
      }
    } else {
      forall i, j | 0 <= i < j < |r| ensures r[i].key != r[j].key {
        assert r[i].key == ks[i] == m[i].key && r[j].key == ks[j] == m[j].key;
      }
    }
  }

  /** `if (!m[k]) m[k] = v` for a dictionary whose values are never empty. */
  function PutIfAbsent(m: Specs, k: string, v: string): Specs {
    if Has(m, k) then m else Put(m, k, v)
  }

  /** The value of the LAST pair with key `k`. */
  function LastValue(pairs: seq<Entry>, k: string): Option<string> {
    if pairs == [] then None
    else if pairs[|pairs| - 1].key == k then Some(pairs[|pairs| - 1].value)
    else LastValue(pairs[..|pairs| - 1], k)
  }

  /** The object built by assigning every pair in order: later pairs overwrite earlier ones. */
  function LastWins(pairs: seq<Entry>): (r: Specs)
    ensures UniqueKeys(r)
  {
    if pairs == [] then []
    else
      var p := pairs[|pairs| - 1];
      PutFacts(LastWins(pairs[..|pairs| - 1]), p.key, p.value);
      Put(LastWins(pairs[..|pairs| - 1]), p.key, p.value)
  }

  /** The object built by assigning only keys not yet present: earlier pairs win. */
  function FirstWins(pairs: seq<Entry>): (r: Specs)
    ensures UniqueKeys(r)
  {
    if pairs == [] then []
    else
      var p := pairs[|pairs| - 1];
      PutFacts(FirstWins(pairs[..|pairs| - 1]), p.key, p.value);
      PutIfAbsent(FirstWins(pairs[..|pairs| - 1]), p.key, p.value)
  }

  /** Under last-wins, each key holds the value of its last pair. */
  lemma {:induction false} LastWinsGet(pairs: seq<Entry>, k: string)
    ensures Get(LastWins(pairs), k) == LastValue(pairs, k)
  {
    if pairs != [] {
      var p := pairs[|pairs| - 1];
      LastWinsGet(pairs[..|pairs| - 1], k);
      PutFacts(LastWins(pairs[..|pairs| - 1]), p.key, p.value);
    }
  }

  lemma GetPrefix(pairs: seq<Entry>, k: string)
    requires pairs != []
    ensures Get(pairs, k) == if Has(pairs[..|pairs| - 1], k) then Get(pairs[..|pairs| - 1], k)
                             else if pairs[|pairs| - 1].key == k then Some(pairs[|pairs| - 1].value)
                             else None
  {
    if |pairs| > 1 && pairs[0].key != k {
      GetPrefix(pairs[1..], k);
      assert pairs[1..][..|pairs| - 2] == pairs[..|pairs| - 1][1..];
    }
  }

  /** Under first-wins, each key holds the value of its first pair. */
  lemma {:induction false} FirstWinsGet(pairs: seq<Entry>, k: string)
    ensures Get(FirstWins(pairs), k) == Get(pairs, k)
  {
    if pairs != [] {
      var init := pairs[..|pairs| - 1];
      FirstWinsGet(init, k);
      GetPrefix(pairs, k);
      var p := pairs[|pairs| - 1];
      PutFacts(FirstWins(init), p.key, p.value);
      FirstWinsGet(init, p.key);
    }
  }

  lemma {:induction false} GetIn(m: Specs, k: string)
    requires Has(m, k)
    ensures Entry(k, Get(m, k).value) in m
  {
    if m[0].key != k {
      GetIn(m[1..], k);
    }
  }

  /** Assignment adds no entry but the assigned one. */
  lemma {:induction false} PutFrom(m: Specs, k: string, v: string, e: Entry)
    requires e in Put(m, k, v)
    ensures e == Entry(k, v) || e in m
  {
    if m != [] && m[0].key != k && e != m[0] {
      assert e in Put(m[1..], k, v);
      PutFrom(m[1..], k, v, e);
    }
  }

  /** Every entry of a last-wins object is one of the pairs it was built from. */
  lemma {:induction false} LastWinsFrom(pairs: seq<Entry>, e: Entry)
    requires e in LastWins(pairs)
    ensures e in pairs
  {
    var init := pairs[..|pairs| - 1];
    var p := pairs[|pairs| - 1];
    assert pairs == init + [p];
    PutFrom(LastWins(init), p.key, p.value, e);
    if e != p {
      LastWinsFrom(init, e);
    }
  }

  /** Every entry of a first-wins object is one of the pairs it was built from. */
  lemma {:induction false} FirstWinsFrom(pairs: seq<Entry>, e: Entry)
    requires e in FirstWins(pairs)
    ensures e in pairs
  {
    var init := pairs[..|pairs| - 1];
    var p := pairs[|pairs| - 1];
    assert pairs == init + [p];
    if !Has(FirstWins(init), p.key) {
      PutNew(FirstWins(init), p.key, p.value);
    }
    if e in FirstWins(init) {
      FirstWinsFrom(init, e);
    }
  }

  lemma FirstWinsHas(pairs: seq<Entry>, k: string)
    ensures Has(FirstWins(pairs), k) <==> Has(pairs, k)
  {
    FirstWinsGet(pairs, k);
  }

  /** Both folds list the keys in the order of their first pair. */
  lemma {:induction false} FoldsSameKeys(pairs: seq<Entry>)
    ensures KeysOf(LastWins(pairs)) == KeysOf(FirstWins(pairs))
    ensures forall k :: Has(LastWins(pairs), k) <==> Has(FirstWins(pairs), k)
  {
    if pairs != [] {
      var init := pairs[..|pairs| - 1];
      FoldsSameKeys(init);
      var p := pairs[|pairs| - 1];
      forall k ensures Has(LastWins(pairs), k) <==> Has(FirstWins(pairs), k) {
        LastWinsGet(pairs, k);
        FirstWinsGet(pairs, k);
        LastValueSome(pairs, k);
      }
      PutFacts(LastWins(init), p.key, p.value);
      PutFacts(FirstWins(init), p.key, p.value);
    }
  }

  /** The last pair with a key is in the second part when that part has one. */
  lemma {:induction false} LastValueConcat(a: seq<Entry>, b: seq<Entry>, k: string)
    ensures LastValue(a + b, k) == if LastValue(b, k).Some? then LastValue(b, k) else LastValue(a, k)
  {
    if b == [] {
      assert a + b == a;
    } else {
      LastValueConcat(a, b[..|b| - 1], k);
      assert (a + b)[..|a + b| - 1] == a + b[..|b| - 1];
      assert (a + b)[|a + b| - 1] == b[|b| - 1];
    }
  }

  lemma LastValueSome(pairs: seq<Entry>, k: string)
    ensures LastValue(pairs, k).Some? <==> Has(pairs, k)
  {
    if pairs != [] {
      LastValueSome(pairs[..|pairs| - 1], k);
      GetPrefix(pairs, k);
    }
  }

  /** `Object.fromEntries` of entries with distinct keys rebuilds the same object. */
  lemma {:induction false} LastWinsOfUnique(m: Specs)
    requires UniqueKeys(m)
    ensures LastWins(m) == m
  {
    if m != [] {
      var init := m[..|m| - 1];
      LastWinsOfUnique(init);
      var p := m[|m| - 1];
      assert !Has(init, p.key) by {
        GetSome(init, p.key);
      }
      PutNew(init, p.key, p.value);
      assert init + [p] == m;
    }
  }

  lemma PutNew(m: Specs, k: string, v: string)
    requires !Has(m, k)
    ensures Put(m, k, v) == m + [Entry(k, v)]
  {
    if m != [] {
      PutNew(m[1..], k, v);
      assert [m[0]] + (m[1..] + [Entry(k, v)]) == m + [Entry(k, v)];
    }
  }

  /** `Object.entries(m).filter(([k, v]) => k && v)`. */
  function NonBlankEntries(m: Specs): (r: Specs)
    ensures |r| <= |m|
    ensures forall i :: 0 <= i < |r| ==> r[i].key != [] && r[i].value != [] && r[i] in m
  {
    if m == [] then []
    else if m[0].key != [] && m[0].value != [] then [m[0]] + NonBlankEntries(m[1..])
    else NonBlankEntries(m[1..])
  }

  lemma NonBlankUnique(m: Specs)
    requires UniqueKeys(m)
    ensures UniqueKeys(NonBlankEntries(m))
  {
    if m != [] {
      NonBlankUnique(m[1..]);
      var r := NonBlankEntries(m[1..]);
      forall j | 0 <= j < |r| ensures r[j].key != m[0].key {
        assert r[j] in m[1..];
      }
    }
  }
}
