/**
 * A JavaScript `Set` filled in a loop and read back with `Array.from`:
 * the distinct elements in the order of their first insertion.
 */
module Dedup {
  import opened Wrappers


  predicate NoDups<T(==)>(s: seq<T>) {
    forall i, j :: 0 <= i < j < |s| ==> s[i] != s[j]
  }

  /** The position of the first occurrence of `x`. */
  function FirstIndex<T(==)>(s: seq<T>, x: T): (i: nat)
    requires x in s
    ensures i < |s| && s[i] == x && x !in s[..i]
  {
    if s[0] == x then 0
    else
      assert s == [s[0]] + s[1..];
      var k := FirstIndex(s[1..], x);
      assert s[..k + 1] == [s[0]] + s[1..][..k];
      k + 1
  }

  /** The elements of `s` in the order they first occur. */
  function Distinct<T(==)>(s: seq<T>): (r: seq<T>)
    ensures |r| <= |s|
  {
    if s == [] then []
    else
      var init := s[..|s| - 1];
      var x := s[|s| - 1];
      var d := Distinct(init);
      if x in init then d else d + [x]
  }

  /** Nothing is lost and nothing is added. */
  lemma {:induction false} DistinctMembers<T(!new)>(s: seq<T>)
    ensures forall x :: x in Distinct(s) <==> x in s
  {
    if s != [] {
      DistinctMembers(s[..|s| - 1]);
      assert s == s[..|s| - 1] + [s[|s| - 1]];
    }
  }

  /** No element is listed twice. */
  lemma {:induction false} DistinctNoDups<T(!new)>(s: seq<T>)
    ensures NoDups(Distinct(s))
  {
    if s != [] {
      var init := s[..|s| - 1];
      DistinctNoDups(init);
      DistinctMembers(init);
      assert s == init + [s[|s| - 1]];
    }
  }

  /** Adding one more element to the set appends it exactly when it is new. */
  lemma DistinctSnoc<T(!new)>(s: seq<T>, x: T)
    ensures Distinct(s + [x]) == if x in s then Distinct(s) else Distinct(s) + [x]
  {
    assert (s + [x])[..|s|] == s;
  }

  /** `set.add(x)` when `added` holds, read back as a list. */
  lemma DistinctAdd<T(!new)>(s: seq<T>, x: T, added: bool)
    ensures Distinct(s + (if added then [x] else []))
      == if added && x !in Distinct(s) then Distinct(s) + [x] else Distinct(s)
  {
    DistinctMembers(s);
    if added {
      DistinctSnoc(s, x);
    } else {
      assert s + [] == s;
    }
  }

  /** A list without repetitions comes back unchanged. */
  lemma {:induction false} DistinctOfNoDups<T(!new)>(s: seq<T>)
    requires NoDups(s)
    ensures Distinct(s) == s
  {
    if s != [] {
      var init := s[..|s| - 1];
      assert NoDups(init);
      DistinctOfNoDups(init);
      assert s[|s| - 1] !in init;
      assert s == init + [s[|s| - 1]];
    }
  }

  /** Every element of `r` occurs in `s`, and `r` lists them in the order of their first occurrence in `s`. */
  ghost predicate InFirstOccurrenceOrder<T(!new)>(s: seq<T>, r: seq<T>)
    requires forall x :: x in r ==> x in s
  {
    forall i, j :: 0 <= i < j < |r| ==> FirstIndex(s, r[i]) < FirstIndex(s, r[j])
  }

  /** The result lists elements in the order of their first occurrence. */
  lemma {:induction false} DistinctOrder<T(!new)>(s: seq<T>)
    ensures (forall x :: x in Distinct(s) <==> x in s) && InFirstOccurrenceOrder(s, Distinct(s))
  {
    DistinctMembers(s);
    if s != [] {
      var init := s[..|s| - 1];
      var x := s[|s| - 1];
      DistinctOrder(init);
      assert s == init + [x];
      OrderSnoc(init, x, Distinct(init));
    }
  }

  /** One more element keeps the order of first occurrences, whether or not it is new. */
  lemma OrderSnoc<T(!new)>(init: seq<T>, x: T, d: seq<T>)
    requires forall y :: y in d <==> y in init
    requires InFirstOccurrenceOrder(init, d)
    ensures forall y :: y in (if x in init then d else d + [x]) ==> y in init + [x]
    ensures InFirstOccurrenceOrder(init + [x], if x in init then d else d + [x])
  {
    var s := init + [x];
    var r := if x in init then d else d + [x];
    forall y | y in init ensures FirstIndex(s, y) == FirstIndex(init, y) {
      FirstIndexPrefix(init, x, y);
    }
    if x !in init {
      FirstIndexLast(init, x);
    }
    forall i, j | 0 <= i < j < |r| ensures FirstIndex(s, r[i]) < FirstIndex(s, r[j]) {
      assert r[i] == d[i] && d[i] in init;
      if j < |d| {
        assert r[j] == d[j];
      }
    }
  }

  lemma FirstIndexLast<T>(init: seq<T>, x: T)
    requires x !in init
    ensures FirstIndex(init + [x], x) == |init|
  {
    var s := init + [x];
    var k := FirstIndex(s, x);
    assert k >= |init| by {
      assert forall j :: 0 <= j < |init| ==> s[j] == init[j];
    }
  }

  lemma FirstIndexPrefix<T>(init: seq<T>, x: T, y: T)
    requires y in init
    ensures FirstIndex(init + [x], y) == FirstIndex(init, y)
  {
    var s := init + [x];
    var k := FirstIndex(init, y);
    assert s[k] == y;
    assert s[..k] == init[..k];
  }

  /** The elements that pass `keep`, in order, duplicates kept (`Array.prototype.filter`). */
  function Kept<T>(s: seq<T>, keep: T -> bool): (r: seq<T>)
    ensures |r| <= |s|
  {
    if s == [] then []
    else Kept(s[..|s| - 1], keep) + (if keep(s[|s| - 1]) then [s[|s| - 1]] else [])
  }

  lemma {:induction false} KeptMembers<T(!new)>(s: seq<T>, keep: T -> bool)
    ensures forall x :: x in Kept(s, keep) <==> x in s && keep(x)
  {
    if s != [] {
      KeptMembers(s[..|s| - 1], keep);
      assert s == s[..|s| - 1] + [s[|s| - 1]];
    }
  }

  /** `s.map(f).filter(Boolean)`: the defined results of `f`, in order. */
  function FilterMap<A, B>(s: seq<A>, f: A -> Option<B>): (r: seq<B>)
    ensures |r| <= |s|
  {
    if s == [] then []
    else FilterMap(s[..|s| - 1], f) + (if f(s[|s| - 1]).Some? then [f(s[|s| - 1]).value] else [])
  }

  lemma {:induction false} FilterMapMembers<A, B>(s: seq<A>, f: A -> Option<B>, y: B)
    ensures y in FilterMap(s, f) <==> exists i :: 0 <= i < |s| && f(s[i]) == Some(y)
  {
    if s != [] {
      var init := s[..|s| - 1];
      FilterMapMembers(init, f, y);
      if exists i :: 0 <= i < |s| && f(s[i]) == Some(y) {
        var i :| 0 <= i < |s| && f(s[i]) == Some(y);
        if i < |init| {
          assert init[i] == s[i];
        }
      }
      if y in FilterMap(init, f) {
        var i :| 0 <= i < |init| && f(init[i]) == Some(y);
        assert s[i] == init[i];
      }
    }
  }

  /** Filtering twice is filtering once by both tests. */
  lemma {:induction false} KeptKept<T>(s: seq<T>, f: T -> bool, g: T -> bool, both: T -> bool)
    requires forall x :: both(x) == (f(x) && g(x))
    ensures Kept(Kept(s, f), g) == Kept(s, both)
  {
    if s != [] {
      var init := s[..|s| - 1];
      KeptKept(init, f, g, both);
      var x := s[|s| - 1];
      assert Kept(s, f) == Kept(init, f) + (if f(x) then [x] else []);
      if f(x) {
        KeptSnoc(Kept(init, f), x, Kept(init, f) + [x], g);
      } else {
        assert Kept(s, f) == Kept(init, f);
        assert Kept(s, both) == Kept(init, both);
      }
    }
  }

  /** Tests that agree everywhere keep the same elements. */
  lemma {:induction false} KeptSame<T>(s: seq<T>, f: T -> bool, g: T -> bool)
    requires forall x :: f(x) == g(x)
    ensures Kept(s, f) == Kept(s, g)
  {
    if s != [] {
      KeptSame(s[..|s| - 1], f, g);
    }
  }

  /** A test that passes everything keeps the list as it is. */
  lemma {:induction false} KeptEverything<T>(s: seq<T>, f: T -> bool)
    requires forall x :: f(x)
    ensures Kept(s, f) == s
  {
    if s != [] {
      KeptEverything(s[..|s| - 1], f);
      assert s == s[..|s| - 1] + [s[|s| - 1]];
    }
  }

  /** A test that passes nothing keeps nothing. */
  lemma {:induction false} KeptNothing<T>(s: seq<T>, f: T -> bool)
    requires forall x :: !f(x)
    ensures Kept(s, f) == []
  {
    if s != [] {
      KeptNothing(s[..|s| - 1], f);
    }
  }

  /** A test that passes no element of the list keeps nothing of it. */
  lemma {:induction false} KeptNone<T>(s: seq<T>, f: T -> bool)
    requires forall i :: 0 <= i < |s| ==> !f(s[i])
    ensures Kept(s, f) == []
  {
    if s != [] {
      KeptNone(s[..|s| - 1], f);
    }
  }

  /** The elements a test keeps and those it drops, together, are the list's elements. */
  lemma {:induction false} KeptSplit<T>(s: seq<T>, f: T -> bool, g: T -> bool)
    requires forall x :: g(x) == !f(x)
    ensures multiset(Kept(s, f)) + multiset(Kept(s, g)) == multiset(s)
  {
    if s != [] {
      var init := s[..|s| - 1];
      KeptSplit(init, f, g);
      assert s == init + [s[|s| - 1]];
    }
  }

  /** What a filter keeps, it keeps as often as the list has it, at most. */
  lemma {:induction false} KeptSub<T>(s: seq<T>, f: T -> bool)
    ensures multiset(Kept(s, f)) <= multiset(s)
  {
    if s != [] {
      var init := s[..|s| - 1];
      KeptSub(init, f);
      assert s == init + [s[|s| - 1]];
    }
  }

  /** Filtering distributes over concatenation. */
  lemma {:induction false} KeptPrefix<T>(a: seq<T>, b: seq<T>, keep: T -> bool)
    ensures Kept(a + b, keep) == Kept(a, keep) + Kept(b, keep)
  {
    if b == [] {
      assert a + b == a;
    } else {
      var bi := b[..|b| - 1];
      KeptPrefix(a, bi, keep);
      assert (a + b)[..|a + b| - 1] == a + bi;
      assert (a + b)[|a + b| - 1] == b[|b| - 1];
    }
  }

  lemma {:induction false} FilterMapPrefix<A, B>(a: seq<A>, b: seq<A>, f: A -> Option<B>)
    ensures FilterMap(a + b, f) == FilterMap(a, f) + FilterMap(b, f)
  {
    if b == [] {
      assert a + b == a;
    } else {
      var bi := b[..|b| - 1];
      FilterMapPrefix(a, bi, f);
      assert (a + b)[..|a + b| - 1] == a + bi;
      assert (a + b)[|a + b| - 1] == b[|b| - 1];
    }
  }
  /** The lists of `ss` one after the other. */
  function Flatten<T>(ss: seq<seq<T>>): seq<T> {
    if ss == [] then [] else Flatten(ss[..|ss| - 1]) + ss[|ss| - 1]
  }

  lemma {:induction false} FlattenMembers<T>(ss: seq<seq<T>>, x: T)
    ensures x in Flatten(ss) <==> exists i :: 0 <= i < |ss| && x in ss[i]
  {
    if ss != [] {
      var init := ss[..|ss| - 1];
      FlattenMembers(init, x);
      if exists i :: 0 <= i < |ss| && x in ss[i] {
        var i :| 0 <= i < |ss| && x in ss[i];
        if i < |init| {
          assert init[i] == ss[i];
        }
      }
      if x in Flatten(init) {
        var i :| 0 <= i < |init| && x in init[i];
        assert ss[i] == init[i];
      }
    }
  }

  lemma KeptSnoc<T>(s: seq<T>, x: T, next: seq<T>, keep: T -> bool)
    requires next == s + [x]
    ensures Kept(next, keep) == Kept(s, keep) + (if keep(x) then [x] else [])
  {
    assert next[..|next| - 1] == s && next[|next| - 1] == x;
  }

  /** `if (keep(x)) set.add(x)` on the list the `Set` reads back as. */
  function AddOne<T(==)>(r: seq<T>, x: T, keep: T -> bool): seq<T> {
    if keep(x) && x !in r then r + [x] else r
  }

  /** `AddOne` for every element of `s`, in order. */
  function AddAll<T(==)>(r: seq<T>, s: seq<T>, keep: T -> bool): seq<T>
    decreases |s|
  {
    if s == [] then r else AddAll(AddOne(r, s[0], keep), s[1..], keep)
  }

  /** Adding the kept elements of `s` to the set of those of `walked` gives the set of those of `walked + s`. */
  lemma {:induction false} AddAllCollects<T(!new)>(walked: seq<T>, s: seq<T>, keep: T -> bool)
    ensures AddAll(Distinct(Kept(walked, keep)), s, keep) == Distinct(Kept(walked + s, keep))
    decreases |s|
  {
    if s == [] {
      assert walked + s == walked;
    } else {
      var next := walked + [s[0]];
      AddAllCollects(next, s[1..], keep);
      AddAllCollectsStep(walked, s, next, keep);
    }
  }

  lemma AddAllCollectsStep<T(!new)>(walked: seq<T>, s: seq<T>, next: seq<T>, keep: T -> bool)
    requires s != [] && next == walked + [s[0]]
    requires AddAll(Distinct(Kept(next, keep)), s[1..], keep) == Distinct(Kept(next + s[1..], keep))
    ensures AddAll(Distinct(Kept(walked, keep)), s, keep) == Distinct(Kept(walked + s, keep))
  {
    var d0 := Distinct(Kept(walked, keep));
    var d1 := Distinct(Kept(next, keep));
    assert AddAll(d0, s, keep) == AddAll(AddOne(d0, s[0], keep), s[1..], keep);
    AddOneCollects(walked, s[0], next, keep);
    assert AddAll(d0, s, keep) == AddAll(d1, s[1..], keep);
    ConcatShift(walked, s, next);
  }

  lemma ConcatShift<T>(walked: seq<T>, s: seq<T>, next: seq<T>)
    requires s != [] && next == walked + [s[0]]
    ensures next + s[1..] == walked + s
  {
  }

  /** One element more in the walk is one `add` more to the set. */
  lemma AddOneCollects<T(!new)>(walked: seq<T>, x: T, next: seq<T>, keep: T -> bool)
    requires next == walked + [x]
    ensures AddOne(Distinct(Kept(walked, keep)), x, keep) == Distinct(Kept(next, keep))
  {
    KeptSnoc(walked, x, next, keep);
    DistinctAdd(Kept(walked, keep), x, keep(x));
  }

  lemma TakeSnoc<T>(s: seq<T>, j: nat)
    requires j < |s|
    ensures s[..j + 1] == s[..j] + [s[j]]
  {
  }

  lemma SnocAssoc<T>(a: seq<T>, b: seq<T>, x: T)
    ensures a + (b + [x]) == (a + b) + [x]
  {}

  lemma InitLast<T>(s: seq<T>)
    requires s != []
    ensures s[..|s| - 1] + [s[|s| - 1]] == s
  {
  }

  lemma AppendAssoc<T>(a: seq<T>, b: seq<T>, x: T)
    ensures (a + b) + [x] == a + (b + [x])
  {
  }

  lemma NoDupsSnoc<T>(s: seq<T>, x: T)
    requires NoDups(s) && x !in s
    ensures NoDups(s + [x])
  {
  }

  /** The set of the elements of `s`. */
  ghost function SetOf<T>(s: seq<T>): set<T> {
    if s == [] then {} else SetOf(s[..|s| - 1]) + {s[|s| - 1]}
  }

  lemma SetOfSnoc<T>(s: seq<T>, x: T)
    ensures SetOf(s + [x]) == SetOf(s) + {x}
  {
    assert (s + [x])[..|s|] == s;
  }

  lemma {:induction false} SetOfMembers<T>(s: seq<T>, x: T)
    ensures x in SetOf(s) <==> x in s
  {
    if s != [] {
      SetOfMembers(s[..|s| - 1], x);
      assert s == s[..|s| - 1] + [s[|s| - 1]];
    }
  }

  /** A list without repetitions has as many elements as its set. */
  lemma {:induction false} SetOfSize<T>(s: seq<T>)
    requires NoDups(s)
    ensures |SetOf(s)| == |s|
  {
    if s != [] {
      var init := s[..|s| - 1];
      assert NoDups(init);
      SetOfSize(init);
      SetOfMembers(init, s[|s| - 1]);
    }
  }
}
