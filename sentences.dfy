/**
 * Sentence splitting as the ingestion scripts do it:
 * `text.split(/(?<=[.!?])\s+/).filter(Boolean).slice(0, max).join(' ')`.
 * A split point is a run of white space right after '.', '!' or '?'.
 */
module Sentences {
  import opened Text

  predicate IsTerminal(c: char) { c == '.' || c == '!' || c == '?' }

  /** Position `i` starts a match of `/(?<=[.!?])\s+/`. */
  predicate BoundaryAt(s: string, i: int) {
    1 <= i < |s| && IsTerminal(s[i - 1]) && IsWs(s[i])
  }

  /** The first match position at or after `k`, or `|s|` when there is none. */
  function FindBoundary(s: string, k: nat): (r: nat)
    ensures r <= |s|
    ensures r < |s| ==> k <= r && BoundaryAt(s, r)
    ensures forall j :: k <= j < r ==> !BoundaryAt(s, j)
    decreases |s| - k
  {
    if k >= |s| then |s| else if BoundaryAt(s, k) then k else FindBoundary(s, k + 1)
  }

  lemma FindBoundaryIsFirst(s: string, k: nat, m: nat)
    requires k <= m < |s| && BoundaryAt(s, m)
    requires forall j :: k <= j < m ==> !BoundaryAt(s, j)
    ensures FindBoundary(s, k) == m
  {
  }

  lemma FindBoundaryNone(s: string)
    requires forall j :: 0 <= j < |s| ==> !BoundaryAt(s, j)
    ensures FindBoundary(s, 1) == |s|
  {
  }

  /** `s.split(/(?<=[.!?])\s+/)`; the empty string gives `[""]`. */
  function SplitSentences(s: string): (r: seq<string>)
    ensures |r| >= 1
    decreases |s|
  {
    var i := FindBoundary(s, 1);
    if i < |s| then [s[..i]] + SplitSentences(TrimStart(s[i..])) else [s]
  }

  function Take(ps: seq<string>, n: nat): (r: seq<string>)
    ensures |r| <= n && |r| <= |ps| && r == ps[..|r|]
    ensures |ps| <= n ==> r == ps
  {
    if n >= |ps| then ps else ps[..n]
  }

  /** `s.split(/(?<=[.!?])\s+/).filter(Boolean).slice(0, max).join(' ')`. */
  function SentenceCap(s: string, max: nat): string {
    Join(Take(NonEmpty(SplitSentences(s)), max), " ")
  }

  /** One sentence of collapsed text: non-empty, collapsed, and no split point inside. */
  ghost predicate Sentence(p: string) {
    p != [] && Collapsed(p) && forall i :: 0 <= i < |p| ==> !BoundaryAt(p, i)
  }

  /** What the split of collapsed text yields: sentences, each but the last ending in '.', '!' or '?'. */
  ghost predicate SentenceList(ps: seq<string>) {
    forall k :: 0 <= k < |ps| ==> Sentence(ps[k]) && (k + 1 < |ps| ==> IsTerminal(ps[k][|ps[k]| - 1]))
  }

  lemma JoinHead(ps: seq<string>)
    requires |ps| >= 1 && ps[0] != []
    ensures Join(ps, " ") != [] && Join(ps, " ")[0] == ps[0][0]
    ensures |ps| > 1 ==> Join(ps, " ") == ps[0] + " " + Join(ps[1..], " ")
  {
  }

  lemma JoinLast(ps: seq<string>)
    requires |ps| >= 1 && ps[|ps| - 1] != []
    ensures Join(ps, " ") != []
    ensures Join(ps, " ")[|Join(ps, " ")| - 1] == ps[|ps| - 1][|ps[|ps| - 1]| - 1]
    decreases |ps|
  {
    if |ps| > 1 {
      JoinLast(ps[1..]);
    }
  }

  /** The text before the first split point of collapsed text is one sentence. */
  lemma FirstPiece(t: string, i: nat)
    requires Collapsed(t) && i == FindBoundary(t, 1) && i < |t|
    ensures Sentence(t[..i]) && IsTerminal(t[..i][i - 1])
  {
    var p := t[..i];
    SqueezedSlice(t, 0, i);
    forall j | 0 <= j < |p| ensures !BoundaryAt(p, j) {
      if 1 <= j {
        assert p[j - 1] == t[j - 1] && p[j] == t[j];
        assert !BoundaryAt(t, j);
      }
    }
    assert p[0] == t[0];
  }

  /** After the first split point of collapsed text comes one space, then collapsed text. */
  lemma RestPiece(t: string, i: nat)
    requires Collapsed(t) && i == FindBoundary(t, 1) && i < |t|
    ensures i + 1 < |t| && t[i] == ' '
    ensures TrimStart(t[i..]) == t[i + 1..]
    ensures Collapsed(t[i + 1..]) && t[i + 1..] != []
  {
    SpaceAtBoundary(t, i);
    TrimAfterSpace(t, i);
    CollapsedAfterSpace(t, i);
  }

  lemma SpaceAtBoundary(t: string, i: nat)
    requires Collapsed(t) && BoundaryAt(t, i)
    ensures i + 1 < |t| && t[i] == ' '
  {
    assert IsWs(t[i]);
    assert t[i] == ' ';
  }

  lemma TrimAfterSpace(t: string, i: nat)
    requires Collapsed(t) && i + 1 < |t| && t[i] == ' '
    ensures TrimStart(t[i..]) == t[i + 1..]
  {
    assert !(IsWs(t[i]) && IsWs(t[i + 1]));
    SqueezedSlice(t, i, |t|);
    TrimStartSqueezed(t[i..]);
    assert t[i..][1..] == t[i + 1..];
  }

  lemma CollapsedAfterSpace(t: string, i: nat)
    requires Collapsed(t) && i + 1 < |t| && t[i] == ' '
    ensures Collapsed(t[i + 1..]) && t[i + 1..] != []
  {
    assert !(IsWs(t[i]) && IsWs(t[i + 1]));
    SqueezedSlice(t, i + 1, |t|);
    assert t[i + 1..][|t| - i - 2] == t[|t| - 1];
  }

  lemma ConsSentenceList(p: string, tail: seq<string>)
    requires Sentence(p) && SentenceList(tail) && (tail != [] ==> IsTerminal(p[|p| - 1]))
    ensures SentenceList([p] + tail)
  {
    var all := [p] + tail;
    forall k | 0 <= k < |all|
      ensures Sentence(all[k]) && (k + 1 < |all| ==> IsTerminal(all[k][|all[k]| - 1]))
    {
      if k > 0 { assert all[k] == tail[k - 1]; }
    }
  }

  lemma TailSentenceList(ps: seq<string>)
    requires |ps| >= 1 && SentenceList(ps)
    ensures SentenceList(ps[1..])
  {
    forall k | 0 <= k < |ps[1..]|
      ensures Sentence(ps[1..][k]) && (k + 1 < |ps[1..]| ==> IsTerminal(ps[1..][k][|ps[1..][k]| - 1]))
    {
      assert ps[1..][k] == ps[k + 1];
    }
  }

  lemma SplitStep(t: string, i: nat)
    requires i == FindBoundary(t, 1) && i < |t| && TrimStart(t[i..]) == t[i + 1..]
    ensures SplitSentences(t) == [t[..i]] + SplitSentences(t[i + 1..])
  {
  }

  lemma JoinCons(p: string, tail: seq<string>)
    requires |tail| >= 1
    ensures Join([p] + tail, " ") == p + " " + Join(tail, " ")
  {
    assert ([p] + tail)[1..] == tail;
  }

  lemma SplitAround(t: string, i: nat)
    requires i < |t| && t[i] == ' '
    ensures t == t[..i] + " " + t[i + 1..]
  {
  }

  /** Collapsed non-empty text splits into a sentence list that joins back to the text. */
  lemma {:induction false} SplitCollapsed(t: string)
    requires t != [] && Collapsed(t)
    ensures SentenceList(SplitSentences(t))
    ensures Join(SplitSentences(t), " ") == t
    decreases |t|
  {
    var i := FindBoundary(t, 1);
    if i == |t| {
      assert SplitSentences(t) == [t];
    } else {
      var p := t[..i];
      RestPiece(t, i);
      FirstPiece(t, i);
      var rest := t[i + 1..];
      SplitCollapsed(rest);
      var tail := SplitSentences(rest);
      SplitStep(t, i);
      ConsSentenceList(p, tail);
      JoinCons(p, tail);
      SplitAround(t, i);
    }
  }

  /** Joining a sentence list with spaces gives collapsed text. */
  lemma {:induction false} JoinCollapsed(ps: seq<string>)
    requires |ps| >= 1 && SentenceList(ps)
    ensures Collapsed(Join(ps, " "))
    decreases |ps|
  {
    if |ps| > 1 {
      var p := ps[0];
      TailSentenceList(ps);
      JoinCollapsed(ps[1..]);
      var j := Join(ps[1..], " ");
      JoinHead(ps);
      JoinHead(ps[1..]);
      JoinLast(ps[1..]);
      var s := p + " " + j;
      assert Join(ps, " ") == s;
      forall i | 0 <= i < |s| && IsWs(s[i]) ensures s[i] == ' ' {
        if i < |p| {
          assert s[i] == p[i];
        } else if i > |p| {
          assert s[i] == j[i - |p| - 1];
        }
      }
      forall i, k | 0 <= i && k == i + 1 && k < |s| ensures !(IsWs(s[i]) && IsWs(s[k])) {
        if k < |p| {
          assert s[i] == p[i] && s[k] == p[k];
        } else if k == |p| {
          assert s[i] == p[|p| - 1];
        } else if k == |p| + 1 {
          assert s[k] == j[0];
        } else {
          assert s[i] == j[i - |p| - 1] && s[k] == j[k - |p| - 1];
        }
      }
      assert s[|s| - 1] == j[|j| - 1];
    }
  }

  /** Splitting a joined sentence list gives the list back. */
  lemma {:induction false} SplitJoin(ps: seq<string>)
    requires |ps| >= 1 && SentenceList(ps)
    ensures SplitSentences(Join(ps, " ")) == ps
    decreases |ps|
  {
    var p := ps[0];
    if |ps| == 1 {
      FindBoundaryNone(p);
    } else {
      TailSentenceList(ps);
      var j := Join(ps[1..], " ");
      JoinHead(ps);
      JoinHead(ps[1..]);
      var s := p + " " + j;
      forall m | 1 <= m < |p| ensures !BoundaryAt(s, m) {
        assert s[m - 1] == p[m - 1] && s[m] == p[m];
        assert !BoundaryAt(p, m);
      }
      assert BoundaryAt(s, |p|);
      FindBoundaryIsFirst(s, 1, |p|);
      assert s[..|p|] == p;
      assert s[|p|..] == " " + j;
      assert TrimStart(" " + j) == j by {
        assert (" " + j)[1..] == j;
      }
      SplitJoin(ps[1..]);
    }
  }

  lemma TakeSentenceList(ps: seq<string>, n: nat)
    requires SentenceList(ps)
    ensures SentenceList(Take(ps, n))
  {
    var q := Take(ps, n);
    forall k | 0 <= k < |q|
      ensures Sentence(q[k]) && (k + 1 < |q| ==> IsTerminal(q[k][|q[k]| - 1]))
    {
      assert q[k] == ps[k];
    }
  }

  lemma NonEmptyOfSentences(ps: seq<string>)
    requires SentenceList(ps)
    ensures NonEmpty(ps) == ps
    decreases |ps|
  {
    if ps != [] {
      assert ps[0] != [];
      TailSentenceList(ps);
      NonEmptyOfSentences(ps[1..]);
    }
  }

  /** A prefix of a list of pieces joins to a prefix of the joined text. */
  lemma {:induction false} JoinTakePrefix(ps: seq<string>, n: nat)
    ensures StartsWith(Join(ps, " "), Join(Take(ps, n), " "))
    decreases |ps|
  {
    if n < |ps| && n > 0 && |ps| > 1 {
      if n == 1 {
        assert Take(ps, n) == [ps[0]];
      } else {
        JoinTakePrefix(ps[1..], n - 1);
        assert Take(ps, n)[1..] == Take(ps[1..], n - 1);
      }
    }
  }

  /**
   * For collapsed text, capping at `max` sentences keeps a prefix of the text
   * made of at most `max` sentences, and capping that again changes nothing.
   */
  lemma {:induction false} CapOfCollapsed(t: string, max: nat)
    requires Collapsed(t)
    ensures Collapsed(SentenceCap(t, max))
    ensures StartsWith(t, SentenceCap(t, max))
    ensures |NonEmpty(SplitSentences(SentenceCap(t, max)))| <= max
    ensures SentenceCap(SentenceCap(t, max), max) == SentenceCap(t, max)
  {
    var u := SentenceCap(t, max);
    if t == [] {
      assert SplitSentences(t) == [t];
      assert u == [];
      assert SplitSentences(u) == [u];
    } else {
      SplitCollapsed(t);
      var ps := SplitSentences(t);
      NonEmptyOfSentences(ps);
      var qs := Take(ps, max);
      TakeSentenceList(ps, max);
      JoinTakePrefix(ps, max);
      if qs == [] {
        assert u == [];
        assert SplitSentences(u) == [u];
      } else {
        JoinCollapsed(qs);
        SplitJoin(qs);
        NonEmptyOfSentences(qs);
      }
    }
  }
}
