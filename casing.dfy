/**
 * Letter-case normalisation of the enrichment pass: `titleCaseRu`,
 * `normalizeCase` and the restoration of the abbreviations "СВЧ" and "ПММ"
 * by `/\bсвч\b/gi` and `/\bпмм\b/gi`.
 *
 * JavaScript's `\b` is a word boundary between an ASCII word character
 * (`[A-Za-z0-9_]`) and anything else, so a Cyrillic word is never bounded
 * the way the patterns expect. The replacement is modelled once over a
 * word class: `AsciiWord` is the code as written, `LetterWord` (ASCII word
 * characters and the Cyrillic block) the evidently intended one.
 */
module Casing {
  import opened Text

  // ---------------------------------------------------------------------------
  // titleCaseRu

  /** `w ? w[0].toUpperCase() + w.slice(1) : ''`. */
  function CapWord(w: string): (r: string)
    ensures |r| == |w|
  {
    if w == [] then [] else [UpperChar(w[0])] + w[1..]
  }

  function CapWords(ws: seq<string>): (r: seq<string>)
    ensures |r| == |ws| && forall k :: 0 <= k < |ws| ==> r[k] == CapWord(ws[k])
  {
    seq(|ws|, k requires 0 <= k < |ws| => CapWord(ws[k]))
  }

  /** `collapseWs(s).split(' ').map(capitalise).join(' ')`. */
  function TitleCaseRu(s: string): string {
    Join(CapWords(Split(CollapseWs(s), ' ')), " ")
  }

  /** Reference: upper-case every character that starts the text or follows a space. */
  function CapitalizeStarts(t: string): (r: string)
    ensures |r| == |t|
  {
    seq(|t|, i requires 0 <= i < |t| => if i == 0 || t[i - 1] == ' ' then UpperChar(t[i]) else t[i])
  }

  /** Capitalising the pieces between spaces capitalises every word start of the text. */
  lemma {:induction false} WordsCapitalized(t: string)
    ensures Join(CapWords(Split(t, ' ')), " ") == CapitalizeStarts(t)
    decreases |t|
  {
    if ' ' !in t {
      assert Split(t, ' ') == [t];
      assert CapWords([t]) == [CapWord(t)];
      forall j | 0 <= j < |t| ensures CapWord(t)[j] == CapitalizeStarts(t)[j] {
        if j > 0 { assert t[j - 1] in t; }
      }
      assert CapWord(t) == CapitalizeStarts(t);
    } else {
      var i := IndexOf(t, ' ');
      var a, rest := t[..i], t[i + 1..];
      WordsCapitalized(rest);
      var ws := Split(rest, ' ');
      assert Split(t, ' ') == [a] + ws;
      var cw := CapWords([a] + ws);
      assert cw[1..] == CapWords(ws);
      assert Join(cw, " ") == CapWord(a) + " " + Join(cw[1..], " ");
      CapStartsAround(t, i);
    }
  }

  /** Around the first space, the word-start capitalisation splits into the first word and the rest. */
  lemma CapStartsAround(t: string, i: nat)
    requires i < |t| && t[i] == ' ' && ' ' !in t[..i]
    ensures CapitalizeStarts(t) == CapWord(t[..i]) + " " + CapitalizeStarts(t[i + 1..])
  {
    var a, rest := t[..i], t[i + 1..];
    var u := CapWord(a) + " " + CapitalizeStarts(rest);
    forall j | 0 <= j < |t| ensures u[j] == CapitalizeStarts(t)[j] {
      if j < i {
        assert u[j] == CapWord(a)[j];
        if j > 0 {
          assert t[j - 1] == a[j - 1] && a[j - 1] in a;
          assert CapWord(a)[j] == a[j] == t[j];
        }
      } else if j == i {
        assert u[j] == ' ';
      } else {
        assert u[j] == CapitalizeStarts(rest)[j - i - 1];
        if j > i + 1 {
          assert t[j - 1] == rest[j - i - 2] && t[j] == rest[j - i - 1];
        }
      }
    }
    assert u == CapitalizeStarts(t);
  }

  /** `titleCaseRu(s)` is the collapsed text with every word start upper-cased. */
  lemma TitleCaseSpec(s: string)
    ensures TitleCaseRu(s) == CapitalizeStarts(CollapseWs(s))
  {
    WordsCapitalized(CollapseWs(s));
  }

  // ---------------------------------------------------------------------------
  // whole-word, case-insensitive replacement

  /** The two notions of a word character `\b` can be read with. */
  datatype WordClass = AsciiWord | LetterWord

  predicate AsciiWordChar(c: char) {
    ('a' <= c <= 'z') || ('A' <= c <= 'Z') || IsDigit(c) || c == '_'
  }

  predicate WordChar(wc: WordClass, c: char) {
    match wc
    case AsciiWord => AsciiWordChar(c)
    case LetterWord => AsciiWordChar(c) || ('\U{0400}' <= c <= '\U{045F}')
  }

  /** `\b` at position `i`: exactly one of the neighbours is a word character. */
  predicate Boundary(s: string, i: nat, wc: WordClass)
    requires i <= |s|
  {
    (i > 0 && WordChar(wc, s[i - 1])) != (i < |s| && WordChar(wc, s[i]))
  }

  /** `w` (lower case) is the text at `k` ignoring case: `s.slice(k, k + w.length).toLowerCase() === w`. */
  predicate LowerIs(s: string, k: nat, w: string) {
    k + |w| <= |s| && forall j {:trigger LowerChar(s[j])} :: k <= j < k + |w| ==> LowerChar(s[j]) == w[j - k]
  }

  /** Two texts that differ at most in letter case. */
  predicate SameUpToCase(a: string, b: string) {
    |a| == |b| && forall i :: 0 <= i < |a| ==> LowerChar(a[i]) == LowerChar(b[i])
  }

  /** `w` occurs at `k`, ignoring case, with a boundary on both sides. */
  predicate MatchAt(s: string, k: nat, w: string, wc: WordClass) {
    LowerIs(s, k, w) && Boundary(s, k, wc) && Boundary(s, k + |w|, wc)
  }

  /** A position lies inside some match. */
  ghost predicate Covered(s: string, i: int, w: string, wc: WordClass) {
    exists m: nat :: m <= i < m + |w| && MatchAt(s, m, w, wc)
  }

  /** All characters of `w` are on the same side of the word class. */
  predicate Uniform(w: string, wc: WordClass) {
    forall i :: 0 <= i < |w| ==> WordChar(wc, w[i]) == WordChar(wc, w[0])
  }

  /** `s.replace(/\bw\b/gi, rep)` from position `k` on: left to right, matches do not overlap. */
  function ReplaceFrom(s: string, k: nat, w: string, rep: string, wc: WordClass): (r: string)
    requires 0 < |w| && |rep| == |w| && k <= |s|
    ensures |r| == |s| - k
    decreases |s| - k
  {
    if k == |s| then []
    else if MatchAt(s, k, w, wc) then rep + ReplaceFrom(s, k + |w|, w, rep, wc)
    else [s[k]] + ReplaceFrom(s, k + 1, w, rep, wc)
  }

  function ReplaceWord(s: string, w: string, rep: string, wc: WordClass): (r: string)
    requires 0 < |w| && |rep| == |w|
  {
    ReplaceFrom(s, 0, w, rep, wc)
  }

  lemma WordCharLower(wc: WordClass, c: char)
    ensures WordChar(wc, LowerChar(c)) == WordChar(wc, c)
  {
  }

  /** Whether a match starts at `k` depends only on the text up to case. */
  lemma MatchAtUpToCase(s: string, s': string, k: nat, w: string, wc: WordClass)
    requires SameUpToCase(s, s')
    ensures MatchAt(s, k, w, wc) == MatchAt(s', k, w, wc)
  {
    forall i | 0 <= i < |s| ensures WordChar(wc, s[i]) == WordChar(wc, s'[i]) {
      WordCharLower(wc, s[i]);
      WordCharLower(wc, s'[i]);
    }
  }

  /** No word boundary falls strictly inside a match of a uniform word. */
  lemma NoBoundaryInside(s: string, a: nat, k: nat, w: string, wc: WordClass)
    requires MatchAt(s, a, w, wc) && Uniform(w, wc) && a < k < a + |w|
    ensures !Boundary(s, k, wc)
  {
    assert LowerChar(s[k - 1]) == w[k - 1 - a] && LowerChar(s[k]) == w[k - a];
    WordCharLower(wc, s[k - 1]);
    WordCharLower(wc, s[k]);
  }

  /** Two matches of a uniform word do not overlap. */
  lemma MatchesApart(s: string, a: nat, k: nat, w: string, wc: WordClass)
    requires MatchAt(s, a, w, wc) && MatchAt(s, k, w, wc) && Uniform(w, wc) && a < k
    ensures a + |w| <= k
  {
    if k < a + |w| {
      NoBoundaryInside(s, a, k, w, wc);
    }
  }

  /** The replaced text from `k` keeps every character outside a match. */
  ghost predicate KeepsUncovered(s: string, k: nat, r: string, w: string, wc: WordClass)
    requires |r| == |s| - k
  {
    forall i {:trigger Covered(s, i, w, wc)} :: k <= i < |s| && !Covered(s, i, w, wc) ==> r[i - k] == s[i]
  }

  lemma KeepsAfterMatch(s: string, k: nat, w: string, rep: string, wc: WordClass, tail: string)
    requires 0 < |w| == |rep| && MatchAt(s, k, w, wc) && |tail| == |s| - k - |w|
    requires KeepsUncovered(s, k + |w|, tail, w, wc)
    ensures KeepsUncovered(s, k, rep + tail, w, wc)
  {
    forall i | k <= i < |s| && !Covered(s, i, w, wc) ensures (rep + tail)[i - k] == s[i] {
      if i < k + |w| {
        assert false;
      }
    }
  }

  lemma KeepsAfterChar(s: string, k: nat, w: string, wc: WordClass, tail: string)
    requires k < |s| && |tail| == |s| - k - 1
    requires KeepsUncovered(s, k + 1, tail, w, wc)
    ensures KeepsUncovered(s, k, [s[k]] + tail, w, wc)
  {
  }

  /** Keeping the characters outside the matches, one step of the scan at a time. */
  lemma {:induction false} ReplaceFromKeeps(s: string, k: nat, w: string, rep: string, wc: WordClass)
    requires 0 < |w| == |rep| && k <= |s|
    ensures KeepsUncovered(s, k, ReplaceFrom(s, k, w, rep, wc), w, wc)
    decreases |s| - k
  {
    if k < |s| {
      if MatchAt(s, k, w, wc) {
        ReplaceFromKeeps(s, k + |w|, w, rep, wc);
        KeepsAfterMatch(s, k, w, rep, wc, ReplaceFrom(s, k + |w|, w, rep, wc));
      } else {
        ReplaceFromKeeps(s, k + 1, w, rep, wc);
        KeepsAfterChar(s, k, w, wc, ReplaceFrom(s, k + 1, w, rep, wc));
      }
    }
  }

  lemma CaseAfterMatch(s: string, k: nat, w: string, rep: string, tail: string)
    requires LowerIs(s, k, w) && |rep| == |w| && LowerIs(rep, 0, w)
    requires SameUpToCase(tail, s[k + |w|..])
    ensures SameUpToCase(rep + tail, s[k..])
  {
    forall i | 0 <= i < |rep + tail| ensures LowerChar((rep + tail)[i]) == LowerChar(s[k..][i]) {
      if i < |w| {
        assert LowerChar(rep[i]) == w[i] == LowerChar(s[k + i]);
      } else {
        assert s[k..][i] == s[k + |w|..][i - |w|];
      }
    }
  }

  lemma CaseAfterChar(s: string, k: nat, tail: string)
    requires k < |s| && SameUpToCase(tail, s[k + 1..])
    ensures SameUpToCase([s[k]] + tail, s[k..])
  {
    forall i | 0 <= i < |tail| + 1 ensures LowerChar(([s[k]] + tail)[i]) == LowerChar(s[k..][i]) {
      if i > 0 { assert s[k..][i] == s[k + 1..][i - 1]; }
    }
  }

  /** A replacement that lower-cases to the word leaves the text the same up to case. */
  lemma {:induction false} ReplaceFromCase(s: string, k: nat, w: string, rep: string, wc: WordClass)
    requires 0 < |w| == |rep| && k <= |s| && LowerIs(rep, 0, w)
    ensures SameUpToCase(ReplaceFrom(s, k, w, rep, wc), s[k..])
    decreases |s| - k
  {
    if k < |s| {
      if MatchAt(s, k, w, wc) {
        ReplaceFromCase(s, k + |w|, w, rep, wc);
        CaseAfterMatch(s, k, w, rep, ReplaceFrom(s, k + |w|, w, rep, wc));
      } else {
        ReplaceFromCase(s, k + 1, w, rep, wc);
        CaseAfterChar(s, k, ReplaceFrom(s, k + 1, w, rep, wc));
      }
    }
  }

  /** `rep` sits at offset `off` of `r`. */
  predicate HasAt(r: string, off: nat, rep: string) {
    off + |rep| <= |r| && forall q :: 0 <= q < |rep| ==> r[off + q] == rep[q]
  }

  lemma HasAtFront(rep: string, tail: string)
    ensures HasAt(rep + tail, 0, rep)
  {
  }

  lemma HasAtShift(r: string, off: nat, rep: string, pre: string)
    requires HasAt(r, off, rep)
    ensures HasAt(pre + r, |pre| + off, rep)
  {
    forall q | 0 <= q < |rep| ensures (pre + r)[|pre| + off + q] == rep[q] {
      assert (pre + r)[|pre| + off + q] == r[off + q];
    }
  }

  /** `rep` found in the tail of `r` is found in `r`, shifted by the prefix. */
  lemma HasAtPrefix(r: string, pre: string, tail: string, off: nat, rep: string, n: nat)
    requires r == pre + tail && HasAt(tail, off, rep) && n == |pre| + off
    ensures HasAt(r, n, rep)
  {
    HasAtShift(tail, off, rep, pre);
  }

  /** A match of a uniform word is replaced by `rep` wherever the scan starts before it. */
  lemma {:induction false} ReplaceAtMatch(s: string, j: nat, k: nat, w: string, rep: string, wc: WordClass)
    requires 0 < |w| == |rep| && Uniform(w, wc) && j <= k && MatchAt(s, k, w, wc)
    ensures HasAt(ReplaceFrom(s, j, w, rep, wc), k - j, rep)
    decreases k - j
  {
    if j == k {
      ReplaceAtFront(s, k, w, rep, wc);
    } else if MatchAt(s, j, w, wc) {
      MatchesApart(s, j, k, w, wc);
      ReplaceAtMatch(s, j + |w|, k, w, rep, wc);
      ReplaceFromMatch(s, j, w, rep, wc);
      ReplaceAfterMatch(s, j, k, w, rep, wc, ReplaceFrom(s, j, w, rep, wc), ReplaceFrom(s, j + |w|, w, rep, wc));
    } else {
      ReplaceAtMatch(s, j + 1, k, w, rep, wc);
      ReplaceFromSkip(s, j, w, rep, wc);
      ReplaceAfterChar(s, j, k, w, rep, wc, ReplaceFrom(s, j, w, rep, wc), ReplaceFrom(s, j + 1, w, rep, wc));
    }
  }

  lemma ReplaceAtFront(s: string, k: nat, w: string, rep: string, wc: WordClass)
    requires 0 < |w| == |rep| && k + |w| <= |s| && MatchAt(s, k, w, wc)
    ensures HasAt(ReplaceFrom(s, k, w, rep, wc), 0, rep)
  {
    HasAtFront(rep, ReplaceFrom(s, k + |w|, w, rep, wc));
  }

  /** One step of the scan at a match. */
  lemma ReplaceFromMatch(s: string, j: nat, w: string, rep: string, wc: WordClass)
    requires 0 < |w| == |rep| && j < |s| && MatchAt(s, j, w, wc)
    ensures j + |w| <= |s| && ReplaceFrom(s, j, w, rep, wc) == rep + ReplaceFrom(s, j + |w|, w, rep, wc)
  {
  }

  /** One step of the scan past a character that starts no match. */
  lemma ReplaceFromSkip(s: string, j: nat, w: string, rep: string, wc: WordClass)
    requires 0 < |w| == |rep| && j < |s| && !MatchAt(s, j, w, wc)
    ensures ReplaceFrom(s, j, w, rep, wc) == [s[j]] + ReplaceFrom(s, j + 1, w, rep, wc)
  {
  }

  /** The replacement found past a match is found from the match on. */
  lemma ReplaceAfterMatch(s: string, j: nat, k: nat, w: string, rep: string, wc: WordClass, r0: string, r1: string)
    requires 0 < |w| == |rep| && j + |w| <= k <= |s|
    requires r0 == ReplaceFrom(s, j, w, rep, wc) && r1 == ReplaceFrom(s, j + |w|, w, rep, wc)
    requires r0 == rep + r1 && HasAt(r1, k - j - |w|, rep)
    ensures HasAt(r0, k - j, rep)
  {
    HasAtPrefix(r0, rep, r1, k - j - |w|, rep, k - j);
  }

  /** The replacement found past a kept character is found from that character on. */
  lemma ReplaceAfterChar(s: string, j: nat, k: nat, w: string, rep: string, wc: WordClass, r0: string, r1: string)
    requires 0 < |w| == |rep| && j < k <= |s|
    requires r0 == ReplaceFrom(s, j, w, rep, wc) && r1 == ReplaceFrom(s, j + 1, w, rep, wc)
    requires r0 == [s[j]] + r1 && HasAt(r1, k - j - 1, rep)
    ensures HasAt(r0, k - j, rep)
  {
    HasAtCons(r0, s[j], r1, k - j - 1, rep);
  }

  lemma HasAtCons(r: string, c: char, tail: string, off: nat, rep: string)
    requires r == [c] + tail && HasAt(tail, off, rep)
    ensures HasAt(r, off + 1, rep)
  {
    HasAtShift(tail, off, rep, [c]);
  }

  /**
   * Replacing a uniform word by an equally long text that lower-cases to it:
   * every match becomes `rep`, every other character is kept, and the text
   * changes only in letter case.
   */
  lemma ReplaceWordSpec(s: string, w: string, rep: string, wc: WordClass)
    requires 0 < |w| == |rep| && Uniform(w, wc) && LowerIs(rep, 0, w)
    ensures var r := ReplaceWord(s, w, rep, wc);
      SameUpToCase(r, s)
      && (forall i :: 0 <= i < |s| && !Covered(s, i, w, wc) ==> r[i] == s[i])
      && (forall k: nat :: MatchAt(s, k, w, wc) ==> r[k..k + |w|] == rep)
  {
    var r := ReplaceFrom(s, 0, w, rep, wc);
    assert r == ReplaceWord(s, w, rep, wc);
    ReplaceFromKeeps(s, 0, w, rep, wc);
    ReplaceFromCase(s, 0, w, rep, wc);
    assert s[0..] == s;
    forall k: nat | MatchAt(s, k, w, wc) ensures r[k..k + |w|] == rep {
      ReplaceAtMatch(s, 0, k, w, rep, wc);
      HasAtSlice(r, k, rep);
    }
  }

  lemma HasAtSlice(r: string, off: nat, rep: string)
    requires HasAt(r, off, rep)
    ensures r[off..off + |rep|] == rep
  {
  }

  // ---------------------------------------------------------------------------
  // normalizeCase

  const Svch := "свч"
  const SvchUpper := "СВЧ"
  const Pmm := "пмм"
  const PmmUpper := "ПММ"

  /** `/[A-ZА-ЯЁ]/.test(t) && t === t.toUpperCase()`. */
  predicate IsAllCaps(t: string) {
    (exists i :: 0 <= i < |t| && IsUpperLetter(t[i])) && Upper(t) == t
  }

  /** The two `replace` calls that restore the abbreviations. */
  function RestoreAbbrevs(x: string, wc: WordClass): string {
    ReplaceWord(ReplaceWord(x, Svch, SvchUpper, wc), Pmm, PmmUpper, wc)
  }

  /** `normalizeCase(s)` read with word class `wc`. */
  function NormalizeCaseWith(s: string, wc: WordClass): string {
    var t := CollapseWs(s);
    if t == [] then t
    else if IsAllCaps(t) then RestoreAbbrevs(TitleCaseRu(Lower(t)), wc)
    else t
  }

  /** `normalizeCase` as written: `\b` sees only ASCII word characters. */
  function NormalizeCaseAsWritten(s: string): string {
    NormalizeCaseWith(s, AsciiWord)
  }

  /** `normalizeCase` with the abbreviations restored as whole Cyrillic words. */
  function NormalizeCase(s: string): string {
    NormalizeCaseWith(s, LetterWord)
  }

  /** The two readings of `normalizeCase` differ only on all-capital text: other text comes back collapsed by both. */
  lemma CaseReadingsAgree(s: string)
    requires !IsAllCaps(CollapseWs(s))
    ensures NormalizeCaseAsWritten(s) == NormalizeCase(s) == CollapseWs(s)
  {
  }

  lemma AbbrevFacts()
    ensures LowerIs(SvchUpper, 0, Svch) && LowerIs(PmmUpper, 0, Pmm)
    ensures Uniform(Svch, LetterWord) && Uniform(Pmm, LetterWord)
    ensures forall i :: 0 <= i < 3 ==> !AsciiWordChar(Svch[i]) && !AsciiWordChar(Pmm[i])
    ensures forall a, b :: 0 <= a < 3 && 0 <= b < 3 ==> Svch[a] != Pmm[b]
  {
    AbbrevLetters();
  }

  /** The case pairs of the letters in "СВЧ" and "ПММ". */
  lemma AbbrevLetters()
    ensures LowerChar('С') == 'с' && LowerChar('В') == 'в' && LowerChar('Ч') == 'ч'
    ensures LowerChar('П') == 'п' && LowerChar('М') == 'м'
    ensures LowerChar('с') == 'с' && LowerChar('в') == 'в' && LowerChar('ч') == 'ч'
    ensures UpperChar('С') == 'С' && UpperChar('В') == 'В' && UpperChar('Ч') == 'Ч'
  {
    LowerBasicCyrillic('С');
    LowerBasicCyrillic('В');
    LowerBasicCyrillic('Ч');
    LowerBasicCyrillic('П');
    LowerBasicCyrillic('М');
    LowerBasicCyrillic('с');
    LowerBasicCyrillic('в');
    LowerBasicCyrillic('ч');
    UpperBasicCyrillic('С');
    UpperBasicCyrillic('В');
    UpperBasicCyrillic('Ч');
  }

  /** Upper-casing the word starts changes only letter case. */
  lemma CapitalizedUpToCase(t: string)
    ensures SameUpToCase(CapitalizeStarts(t), t)
  {
    forall i | 0 <= i < |t| ensures LowerChar(CapitalizeStarts(t)[i]) == LowerChar(t[i]) {
      LowerOfUpperChar(t[i]);
    }
  }

  lemma LowerOfUpperChar(c: char)
    ensures LowerChar(UpperChar(c)) == LowerChar(c)
  {
    CharRoundTrip(c);
  }

  /** Texts equal up to case have their white space in the same places: collapsing carries over. */
  lemma CollapsedUpToCase(t: string, r: string)
    requires SameUpToCase(r, t) && Collapsed(t)
    ensures Collapsed(r)
  {
    forall i | 0 <= i < |t| ensures IsWs(r[i]) == IsWs(t[i]) && (IsWs(t[i]) ==> r[i] == t[i]) {
      CaseKeepsWs(r[i]);
      CaseKeepsWs(t[i]);
    }
  }

  /** An upper-cased "свч" and a "пмм" never overlap. */
  lemma AbbrevsApart(x: string, k: nat, m: nat)
    requires LowerIs(x, k, Svch) && LowerIs(x, m, Pmm)
    ensures k + 3 <= m || m + 3 <= k
  {
    AbbrevFacts();
    var i := if k < m then m else k;
    var c := LowerChar(x[i]);
  }

  /** The pieces of the all-capitals branch of `normalizeCase`. */
  lemma TitleOfAllCaps(t: string)
    requires Collapsed(t)
    ensures Collapsed(Lower(t)) && TitleCaseRu(Lower(t)) == CapitalizeStarts(Lower(t))
    ensures SameUpToCase(CapitalizeStarts(Lower(t)), t)
  {
    var lt := Lower(t);
    forall i | 0 <= i < |t| ensures LowerChar(lt[i]) == LowerChar(t[i]) {
      CharRoundTrip(t[i]);
    }
    CollapsedUpToCase(t, lt);
    CollapseWsOfCollapsed(lt);
    TitleCaseSpec(lt);
    CapitalizedUpToCase(lt);
  }

  /**
   * `normalizeCase`: text that is not all capitals comes back collapsed and
   * otherwise unchanged; all-capital text becomes its lower-cased form with
   * every word start upper-cased, whole-word "свч"/"пмм" then written
   * "СВЧ"/"ПММ", every other character as in that title-cased text. In
   * every case only letter case changes and the result is collapsed.
   */
  lemma NormalizeCaseSpec(s: string)
    ensures var t := CollapseWs(s);
      var r := NormalizeCase(s);
      var title := CapitalizeStarts(Lower(t));
      Collapsed(r) && SameUpToCase(r, t)
      && (!IsAllCaps(t) ==> r == t)
      && (IsAllCaps(t) ==>
            (forall k: nat :: MatchAt(title, k, Svch, LetterWord) ==> r[k..k + 3] == SvchUpper)
            && (forall k: nat :: MatchAt(title, k, Pmm, LetterWord) ==> r[k..k + 3] == PmmUpper)
            && (forall i :: 0 <= i < |t| && !Covered(title, i, Svch, LetterWord) && !Covered(title, i, Pmm, LetterWord)
                  ==> r[i] == title[i]))
  {
    var t := CollapseWs(s);
    CollapseWsCollapsed(s);
    if t != [] && IsAllCaps(t) {
      AllCapsBranch(t);
    }
  }

  lemma AllCapsBranch(t: string)
    requires Collapsed(t) && t != [] && IsAllCaps(t)
    ensures var r := RestoreAbbrevs(TitleCaseRu(Lower(t)), LetterWord);
      var title := CapitalizeStarts(Lower(t));
      Collapsed(r) && SameUpToCase(r, t)
      && (forall k: nat :: MatchAt(title, k, Svch, LetterWord) ==> r[k..k + 3] == SvchUpper)
      && (forall k: nat :: MatchAt(title, k, Pmm, LetterWord) ==> r[k..k + 3] == PmmUpper)
      && (forall i :: 0 <= i < |t| && !Covered(title, i, Svch, LetterWord) && !Covered(title, i, Pmm, LetterWord)
            ==> r[i] == title[i])
  {
    TitleOfAllCaps(t);
    var title := CapitalizeStarts(Lower(t));
    RestoreSpec(title);
    var r := RestoreAbbrevs(title, LetterWord);
    assert SameUpToCase(r, t) by {
      forall i | 0 <= i < |t| ensures LowerChar(r[i]) == LowerChar(t[i]) {
        assert LowerChar(r[i]) == LowerChar(title[i]);
      }
    }
    CollapsedUpToCase(t, r);
  }

  /**
   * Restoring the abbreviations: every whole-word "свч" becomes "СВЧ",
   * every whole-word "пмм" becomes "ПММ", every other character is kept.
   */
  lemma RestoreSpec(x: string)
    ensures var r := RestoreAbbrevs(x, LetterWord);
      SameUpToCase(r, x)
      && (forall k: nat :: MatchAt(x, k, Svch, LetterWord) ==> r[k..k + 3] == SvchUpper)
      && (forall k: nat :: MatchAt(x, k, Pmm, LetterWord) ==> r[k..k + 3] == PmmUpper)
      && (forall i :: 0 <= i < |x| && !Covered(x, i, Svch, LetterWord) && !Covered(x, i, Pmm, LetterWord)
            ==> r[i] == x[i])
  {
    AbbrevFacts();
    var x1 := ReplaceWord(x, Svch, SvchUpper, LetterWord);
    var r := ReplaceWord(x1, Pmm, PmmUpper, LetterWord);
    ReplaceWordSpec(x, Svch, SvchUpper, LetterWord);
    ReplaceWordSpec(x1, Pmm, PmmUpper, LetterWord);
    assert SameUpToCase(r, x) by {
      forall i | 0 <= i < |x| ensures LowerChar(r[i]) == LowerChar(x[i]) {
        assert LowerChar(r[i]) == LowerChar(x1[i]);
      }
    }
    forall k: nat | MatchAt(x, k, Svch, LetterWord) ensures r[k..k + 3] == SvchUpper {
      SecondKeepsFirst(x1, r, k);
    }
    forall k: nat | MatchAt(x, k, Pmm, LetterWord) ensures r[k..k + 3] == PmmUpper {
      MatchAtUpToCase(x1, x, k, Pmm, LetterWord);
    }
    forall i | 0 <= i < |x| && !Covered(x, i, Svch, LetterWord) && !Covered(x, i, Pmm, LetterWord)
      ensures r[i] == x[i]
    {
      CoveredUpToCase(x1, x, i, Pmm, LetterWord);
    }
  }

  /** Replacing "пмм" leaves an "СВЧ" written by the first replacement alone. */
  lemma SecondKeepsFirst(x1: string, r: string, k: nat)
    requires k + 3 <= |x1| && x1[k..k + 3] == SvchUpper && |r| == |x1|
    requires forall i :: 0 <= i < |x1| && !Covered(x1, i, Pmm, LetterWord) ==> r[i] == x1[i]
    ensures r[k..k + 3] == SvchUpper
  {
    AbbrevFacts();
    assert LowerIs(x1, k, Svch) by {
      forall j | k <= j < k + 3 ensures LowerChar(x1[j]) == Svch[j - k] {
        assert x1[j] == SvchUpper[j - k];
      }
    }
    forall i | k <= i < k + 3 ensures r[i] == x1[i] {
      if Covered(x1, i, Pmm, LetterWord) {
        var m: nat :| m <= i < m + 3 && MatchAt(x1, m, Pmm, LetterWord);
        AbbrevsApart(x1, k, m);
      }
    }
  }

  lemma CoveredUpToCase(a: string, b: string, i: int, w: string, wc: WordClass)
    requires SameUpToCase(a, b)
    ensures Covered(a, i, w, wc) == Covered(b, i, w, wc)
  {
    if Covered(a, i, w, wc) {
      var m: nat :| m <= i < m + |w| && MatchAt(a, m, w, wc);
      MatchAtUpToCase(a, b, m, w, wc);
    }
    if Covered(b, i, w, wc) {
      var m: nat :| m <= i < m + |w| && MatchAt(b, m, w, wc);
      MatchAtUpToCase(a, b, m, w, wc);
    }
  }

  /** The result of `normalizeCase` is collapsed and differs from the collapsed input only in case. */
  lemma NormalizeCaseShape(s: string)
    ensures Collapsed(NormalizeCase(s)) && SameUpToCase(NormalizeCase(s), CollapseWs(s))
  {
    var t := CollapseWs(s);
    CollapseWsCollapsed(s);
    if t != [] && IsAllCaps(t) {
      TitleOfAllCaps(t);
      var title := CapitalizeStarts(Lower(t));
      RestoreUpToCase(title);
      var r := RestoreAbbrevs(title, LetterWord);
      assert SameUpToCase(r, t) by {
        forall i | 0 <= i < |t| ensures LowerChar(r[i]) == LowerChar(t[i]) {
          assert LowerChar(r[i]) == LowerChar(title[i]);
        }
      }
      CollapsedUpToCase(t, r);
    }
  }

  lemma RestoreUpToCase(x: string)
    ensures SameUpToCase(RestoreAbbrevs(x, LetterWord), x)
  {
    AbbrevFacts();
    var x1 := ReplaceWord(x, Svch, SvchUpper, LetterWord);
    ReplaceFromCase(x, 0, Svch, SvchUpper, LetterWord);
    ReplaceFromCase(x1, 0, Pmm, PmmUpper, LetterWord);
    assert x[0..] == x && x1[0..] == x1;
  }

  /** Normalising twice changes nothing. */
  lemma NormalizeCaseIdempotent(s: string)
    ensures NormalizeCase(NormalizeCase(s)) == NormalizeCase(s)
  {
    var t := CollapseWs(s);
    var r := NormalizeCase(s);
    NormalizeCaseShape(s);
    NormalizeCaseOfCollapsed(r);
    if t != [] && IsAllCaps(t) && IsAllCaps(r) {
      LowerUpToCase(r, t);
    }
  }

  /** A collapsed text is normalised without collapsing again. */
  lemma NormalizeCaseOfCollapsed(x: string)
    requires Collapsed(x)
    ensures NormalizeCase(x) == if x != [] && IsAllCaps(x) then RestoreAbbrevs(TitleCaseRu(Lower(x)), LetterWord) else x
  {
    CollapseWsOfCollapsed(x);
  }

  /** An all-capital text that collapsing keeps is title-cased and has its abbreviations restored. */
  lemma NormalizeWithAllCaps(x: string, wc: WordClass)
    requires CollapseWs(x) == x && x != [] && IsAllCaps(x)
    ensures NormalizeCaseWith(x, wc) == RestoreAbbrevs(TitleCaseRu(Lower(x)), wc)
  {
  }

  /** Texts equal up to case have the same lower case. */
  lemma LowerUpToCase(a: string, b: string)
    requires SameUpToCase(a, b)
    ensures Lower(a) == Lower(b)
  {
    assert forall i :: 0 <= i < |a| ==> Lower(a)[i] == LowerChar(a[i]) == LowerChar(b[i]) == Lower(b)[i];
  }

  // ---------------------------------------------------------------------------
  // the word boundary as written

  /**
   * With `\b` read on ASCII word characters, a word made only of non-ASCII
   * letters matches only where an ASCII letter, digit or '_' touches it on
   * both sides.
   */
  lemma AsWrittenNeedsAsciiNeighbours(s: string, k: nat, w: string)
    requires 0 < |w| && forall i :: 0 <= i < |w| ==> !AsciiWordChar(w[i])
    requires MatchAt(s, k, w, AsciiWord)
    ensures k > 0 && AsciiWordChar(s[k - 1])
    ensures k + |w| < |s| && AsciiWordChar(s[k + |w|])
  {
    assert LowerChar(s[k]) == w[0] && LowerChar(s[k + |w| - 1]) == w[|w| - 1];
    WordCharLower(AsciiWord, s[k]);
    WordCharLower(AsciiWord, s[k + |w| - 1]);
  }

  /** As written, text without ASCII word characters passes the replacement unchanged. */
  lemma AsWrittenKeepsCyrillic(s: string, w: string, rep: string)
    requires 0 < |w| == |rep| && forall i :: 0 <= i < |w| ==> !AsciiWordChar(w[i])
    requires forall i :: 0 <= i < |s| ==> !AsciiWordChar(s[i])
    ensures ReplaceWord(s, w, rep, AsciiWord) == s
  {
    ReplaceFromKeeps(s, 0, w, rep, AsciiWord);
    var r := ReplaceWord(s, w, rep, AsciiWord);
    forall i | 0 <= i < |s| ensures r[i] == s[i] {
      if Covered(s, i, w, AsciiWord) {
        var m: nat :| m <= i < m + |w| && MatchAt(s, m, w, AsciiWord);
        AsWrittenNeedsAsciiNeighbours(s, m, w);
      }
      assert !Covered(s, i, w, AsciiWord);
    }
  }

  lemma SvchShape()
    ensures CollapseWs(SvchUpper) == SvchUpper && IsAllCaps(SvchUpper)
  {
    assert Collapsed(SvchUpper);
    CollapseWsOfCollapsed(SvchUpper);
    AbbrevLetters();
    assert IsUpperLetter(SvchUpper[0]);
    assert Upper(SvchUpper) == SvchUpper;
  }

  lemma LowerSvch()
    ensures Lower(SvchUpper) == Svch
  {
    AbbrevLetters();
    var l := Lower(SvchUpper);
    assert l[0] == Svch[0] && l[1] == Svch[1] && l[2] == Svch[2];
  }

  lemma TitleSvch()
    ensures TitleCaseRu(Svch) == "Свч"
  {
    SvchCollapsed();
    TitleCaseSpec(Svch);
    CapSvch();
  }

  lemma SvchCollapsed()
    ensures CollapseWs(Svch) == Svch
  {
    assert Collapsed(Svch);
    CollapseWsOfCollapsed(Svch);
  }

  lemma CapSvch()
    ensures CapitalizeStarts(Svch) == "Свч"
  {
    var c := CapitalizeStarts(Svch);
    assert c[0] == 'С' && c[1] == 'в' && c[2] == 'ч';
  }

  lemma TitleOfSvch()
    ensures CollapseWs(SvchUpper) == SvchUpper && IsAllCaps(SvchUpper)
    ensures TitleCaseRu(Lower(SvchUpper)) == "Свч"
  {
    SvchShape();
    LowerSvch();
    TitleSvch();
  }

  /** As written, the all-capital label "СВЧ" comes out as "Свч": the abbreviation is not restored. */
  lemma AsWrittenLosesSvch()
    ensures NormalizeCaseAsWritten(SvchUpper) == "Свч"
  {
    TitleOfSvch();
    NormalizeWithAllCaps(SvchUpper, AsciiWord);
    AsWrittenRestoresNothing();
  }

  /** As written, neither replacement touches "Свч": no ASCII word character borders it. */
  lemma AsWrittenRestoresNothing()
    ensures RestoreAbbrevs("Свч", AsciiWord) == "Свч"
  {
    AbbrevFacts();
    var x := "Свч";
    assert forall i :: 0 <= i < |x| ==> !AsciiWordChar(x[i]);
    AsWrittenKeepsCyrillic(x, Svch, SvchUpper);
    AsWrittenKeepsCyrillic(x, Pmm, PmmUpper);
  }

  /** With the boundary read on letters, "СВЧ" survives normalisation. */
  lemma NormalizeKeepsSvch()
    ensures NormalizeCase(SvchUpper) == SvchUpper
  {
    TitleOfSvch();
    NormalizeWithAllCaps(SvchUpper, LetterWord);
    var x1 := ReplaceWord("Свч", Svch, SvchUpper, LetterWord);
    SvchRestored();
    PmmAbsent(x1);
  }

  lemma SvchRestored()
    ensures ReplaceWord("Свч", Svch, SvchUpper, LetterWord) == SvchUpper
  {
    AbbrevFacts();
    AbbrevLetters();
    var x := "Свч";
    assert LowerIs(x, 0, Svch);
    assert MatchAt(x, 0, Svch, LetterWord);
    ReplaceWordSpec(x, Svch, SvchUpper, LetterWord);
    var x1 := ReplaceWord(x, Svch, SvchUpper, LetterWord);
    assert x1 == x1[0..3] == SvchUpper;
  }

  lemma PmmAbsent(x1: string)
    requires x1 == SvchUpper
    ensures ReplaceWord(x1, Pmm, PmmUpper, LetterWord) == x1
  {
    AbbrevFacts();
    ReplaceWordSpec(x1, Pmm, PmmUpper, LetterWord);
    forall i | 0 <= i < 3 ensures !Covered(x1, i, Pmm, LetterWord) {
      if Covered(x1, i, Pmm, LetterWord) {
        assert false;
      }
    }
  }
}
