/**
 * String primitives of the JavaScript runtime that the storefront and the
 * ingestion scripts lean on: the `\s` character class (which is also the set
 * `String.prototype.trim` removes), `trim`, `replace(/\s+/g, ' ')`,
 * `split`/`join` on one separator, prefix and substring tests, decimal digits,
 * and lower/upper case for the one-to-one case pairs of Basic Latin,
 * Latin-1, Latin Extended-A, Cyrillic and the Cyrillic Supplement.
 */
module Text {

  /** The characters JavaScript's `\s` matches (white space and line terminators). */
  predicate IsWs(c: char) {
    c == ' ' || c == '\t' || c == '\n' || c == '\r' || c == '\U{000B}' || c == '\U{000C}'
    || c == '\U{00A0}' || c == '\U{1680}' || ('\U{2000}' <= c <= '\U{200A}')
    || c == '\U{2028}' || c == '\U{2029}' || c == '\U{202F}' || c == '\U{205F}'
    || c == '\U{3000}' || c == '\U{FEFF}'
  }

  /** JavaScript's `\d`: the ASCII decimal digits. */
  predicate IsDigit(c: char) { '0' <= c <= '9' }

  predicate AllDigits(s: string) { forall i :: 0 <= i < |s| ==> IsDigit(s[i]) }

  predicate NoWs(s: string) { forall i :: 0 <= i < |s| ==> !IsWs(s[i]) }

  // ---------------------------------------------------------------------------
  // trim

  /** The number of white-space characters `s` starts with. */
  function LeadingWs(s: string): (n: nat)
    ensures n <= |s|
    ensures forall k :: 0 <= k < n ==> IsWs(s[k])
    ensures n < |s| ==> !IsWs(s[n])
  {
    if s != [] && IsWs(s[0]) then 1 + LeadingWs(s[1..]) else 0
  }

  /** The number of white-space characters `s` ends with. */
  function TrailingWs(s: string): (n: nat)
    ensures n <= |s|
    ensures forall k :: |s| - n <= k < |s| ==> IsWs(s[k])
    ensures n < |s| ==> !IsWs(s[|s| - n - 1])
  {
    if s != [] && IsWs(s[|s| - 1]) then 1 + TrailingWs(s[..|s| - 1]) else 0
  }

  /** Leading white space removed. */
  function TrimStart(s: string): string { s[LeadingWs(s)..] }

  /** Trailing white space removed. */
  function TrimEnd(s: string): string { s[..|s| - TrailingWs(s)] }

  /** `String.prototype.trim`. */
  function Trim(s: string): string { TrimEnd(TrimStart(s)) }

  /** `a || b` on strings: the empty string is the only falsy one. */
  function Or(a: string, b: string): string { if a != [] then a else b }

  lemma TrimShape(s: string)
    ensures Trim(s) == [] || (!IsWs(Trim(s)[0]) && !IsWs(Trim(s)[|Trim(s)| - 1]))
  {
  }

  /** `trim()` of a string that neither starts nor ends with white space is the identity. */
  lemma TrimIdentity(s: string)
    requires s == [] || (!IsWs(s[0]) && !IsWs(s[|s| - 1]))
    ensures Trim(s) == s
  {
  }

  // ---------------------------------------------------------------------------
  // replace(/\s+/g, ' ')

  /** Every maximal run of white space replaced by one space. */
  function Squeeze(s: string): (r: string)
    decreases |s|
  {
    if s == [] then []
    else if IsWs(s[0]) then " " + Squeeze(TrimStart(s))
    else [s[0]] + Squeeze(s[1..])
  }

  /** The only white space left is a single ' ' never followed by more white space. */
  ghost predicate Squeezed(t: string) {
    (forall i :: 0 <= i < |t| && IsWs(t[i]) ==> t[i] == ' ')
    && (forall i, j :: 0 <= i < j < |t| && j == i + 1 ==> !(IsWs(t[i]) && IsWs(t[j])))
  }

  /**
   * The normal form `replace(/\s+/g, ' ').trim()` produces: no white space
   * at either end, and every inner white space is one ' ' between two
   * non-space characters.
   */
  ghost predicate Collapsed(t: string) {
    (t == [] || (!IsWs(t[0]) && !IsWs(t[|t| - 1]))) && Squeezed(t)
  }

  lemma {:induction false} SqueezeStart(s: string)
    ensures s == [] <==> Squeeze(s) == []
    ensures s != [] && !IsWs(s[0]) ==> Squeeze(s)[0] == s[0]
    ensures s != [] && IsWs(s[0]) ==> Squeeze(s)[0] == ' '
  {
  }

  lemma SqueezedCons(c: char, q: string)
    requires Squeezed(q)
    requires IsWs(c) ==> c == ' ' && (q == [] || !IsWs(q[0]))
    ensures Squeezed([c] + q)
  {
    var t := [c] + q;
    forall i | 0 <= i < |t| && IsWs(t[i]) ensures t[i] == ' ' {
      if i > 0 { assert t[i] == q[i - 1]; }
    }
    forall i, j | 0 <= i && j == i + 1 && j < |t| ensures !(IsWs(t[i]) && IsWs(t[j])) {
      assert t[j] == q[j - 1];
      if i > 0 { assert t[i] == q[i - 1]; }
    }
  }

  lemma {:induction false} SqueezeSqueezed(s: string)
    ensures Squeezed(Squeeze(s))
    decreases |s|
  {
    if s == [] {
    } else if IsWs(s[0]) {
      var rest := TrimStart(s);
      SqueezeSqueezed(rest);
      SqueezeStart(rest);
      SqueezedCons(' ', Squeeze(rest));
    } else {
      SqueezeSqueezed(s[1..]);
      SqueezedCons(s[0], Squeeze(s[1..]));
    }
  }

  lemma SqueezedSlice(t: string, a: nat, b: nat)
    requires a <= b <= |t| && Squeezed(t)
    ensures Squeezed(t[a..b])
  {
    var u := t[a..b];
    forall i | 0 <= i < |u| && IsWs(u[i]) ensures u[i] == ' ' {
      assert u[i] == t[a + i];
    }
    forall i, j | 0 <= i && j == i + 1 && j < |u| ensures !(IsWs(u[i]) && IsWs(u[j])) {
      assert u[i] == t[a + i] && u[j] == t[a + j];
    }
  }

  /** Leading white space of a squeezed string is at most its first character. */
  lemma TrimStartSqueezed(t: string)
    requires t != [] && IsWs(t[0]) && Squeezed(t)
    ensures TrimStart(t) == t[1..]
  {
    if |t| > 1 {
      assert !(IsWs(t[0]) && IsWs(t[1]));
    }
  }

  /** A squeezed string is left alone by `replace(/\s+/g, ' ')`. */
  lemma {:induction false} SqueezeOfSqueezed(t: string)
    requires Squeezed(t)
    ensures Squeeze(t) == t
    decreases |t|
  {
    if t != [] {
      SqueezedSlice(t, 1, |t|);
      SqueezeOfSqueezed(t[1..]);
      if IsWs(t[0]) {
        TrimStartSqueezed(t);
        assert Squeeze(t) == " " + Squeeze(t[1..]);
      } else {
        assert Squeeze(t) == [t[0]] + Squeeze(t[1..]);
      }
    }
  }

  /** JavaScript `s.replace(/\s+/g, ' ').trim()` (and `collapseWs`, `cleanText` of the scripts). */
  function CollapseWs(s: string): string { Trim(Squeeze(s)) }

  /** The collapsed form has the shape `Collapsed` describes. */
  lemma CollapseWsCollapsed(s: string)
    ensures Collapsed(CollapseWs(s))
  {
    var q := Squeeze(s);
    SqueezeSqueezed(s);
    var a := TrimStart(q);
    var t := TrimEnd(a);
    SqueezedSlice(q, |q| - |a|, |q|);
    SqueezedSlice(a, 0, |t|);
  }

  lemma CollapseWsOfCollapsed(t: string)
    requires Collapsed(t)
    ensures CollapseWs(t) == t
  {
    SqueezeOfSqueezed(t);
    TrimIdentity(t);
  }

  lemma CollapseWsIdempotent(s: string)
    ensures CollapseWs(CollapseWs(s)) == CollapseWs(s)
  {
    CollapseWsCollapsed(s);
    CollapseWsOfCollapsed(CollapseWs(s));
  }

  /** A collapsed string is blank exactly when the input is all white space. */
  lemma CollapseWsEmpty(s: string)
    ensures CollapseWs(s) == [] <==> NoNonWs(s)
  {
    if NoNonWs(s) {
      if s != [] {
        assert TrimStart(s) == [];
        assert Squeeze(s) == " ";
      }
    } else {
      SqueezeKeeps(s);
      var q := Squeeze(s);
      var j :| 0 <= j < |q| && !IsWs(q[j]);
      NonWsSurvivesTrim(q, j);
    }
  }

  predicate NoNonWs(s: string) { forall i :: 0 <= i < |s| ==> IsWs(s[i]) }

  /** A non-space character of the input survives `Squeeze`. */
  lemma {:induction false} SqueezeKeeps(s: string)
    requires !NoNonWs(s)
    ensures !NoNonWs(Squeeze(s))
    decreases |s|
  {
    if IsWs(s[0]) {
      var rest := TrimStart(s);
      KeepsInSuffix(s, rest);
      SqueezeKeeps(rest);
      var q := Squeeze(rest);
      var j :| 0 <= j < |q| && !IsWs(q[j]);
      assert Squeeze(s) == " " + q;
      assert Squeeze(s)[j + 1] == q[j];
    } else {
      assert Squeeze(s)[0] == s[0];
    }
  }

  lemma KeepsInSuffix(s: string, rest: string)
    requires !NoNonWs(s) && rest == TrimStart(s)
    ensures !NoNonWs(rest)
  {
    var i :| 0 <= i < |s| && !IsWs(s[i]);
    var off := |s| - |rest|;
    assert i >= off;
    assert rest[i - off] == s[i];
  }

  /** `s.trim()` is empty exactly when `s` is all white space. */
  lemma TrimEmpty(s: string)
    ensures Trim(s) == [] <==> NoNonWs(s)
  {
    if !NoNonWs(s) {
      var j :| 0 <= j < |s| && !IsWs(s[j]);
      NonWsSurvivesTrim(s, j);
    }
  }

  lemma NonWsSurvivesTrim(q: string, j: nat)
    requires j < |q| && !IsWs(q[j])
    ensures Trim(q) != []
  {
    var a := TrimStart(q);
    assert |q| - |a| <= j;
    assert a[j - (|q| - |a|)] == q[j];
    var t := TrimEnd(a);
    assert j - (|q| - |a|) < |t|;
  }

  // ---------------------------------------------------------------------------
  // prefixes, suffixes, substrings

  predicate StartsWith(s: string, p: string) { |p| <= |s| && s[..|p|] == p }

  predicate EndsWith(s: string, p: string) { |p| <= |s| && s[|s| - |p|..] == p }

  /** `s.includes(p)`. */
  predicate Contains(s: string, p: string)
    decreases |s|
  {
    StartsWith(s, p) || (s != [] && Contains(s[1..], p))
  }

  /** Every character of a substring occurs in the string. */
  lemma {:induction false} ContainsChars(s: string, p: string, j: nat)
    requires Contains(s, p) && j < |p|
    ensures p[j] in s
    decreases |s|
  {
    if StartsWith(s, p) {
      assert s[j] == p[j];
    } else {
      ContainsChars(s[1..], p, j);
    }
  }

  /** A string lacking one character of `p` does not contain `p`. */
  lemma NoCharNoContains(s: string, p: string, j: nat)
    requires j < |p| && p[j] !in s
    ensures !Contains(s, p)
  {
    if Contains(s, p) {
      ContainsChars(s, p, j);
    }
  }

  /** A text holding `p + q` holds `p`. */
  lemma {:induction false} ContainsLonger(s: string, p: string, q: string)
    requires Contains(s, p + q)
    ensures Contains(s, p)
    decreases |s|
  {
    if StartsWith(s, p + q) {
      assert s[..|p|] == (p + q)[..|p|] == p;
    } else {
      ContainsLonger(s[1..], p, q);
    }
  }

  /** What a string contains, it still contains with more text after it. */
  lemma {:induction false} ContainsAppendRight(a: string, b: string, p: string)
    requires Contains(a, p)
    ensures Contains(a + b, p)
    decreases |a|
  {
    if StartsWith(a, p) {
      assert (a + b)[..|p|] == a[..|p|];
    } else {
      assert (a + b)[1..] == a[1..] + b;
      ContainsAppendRight(a[1..], b, p);
    }
  }

  /** What a string contains, it still contains with more text before it. */
  lemma {:induction false} ContainsAppendLeft(a: string, b: string, p: string)
    requires Contains(b, p)
    ensures Contains(a + b, p)
    decreases |a|
  {
    if a != [] {
      assert (a + b)[1..] == a[1..] + b;
      ContainsAppendLeft(a[1..], b, p);
    } else {
      assert a + b == b;
    }
  }

  // ---------------------------------------------------------------------------
  // split / join on a single-character separator

  function IndexOf(s: string, c: char): (i: nat)
    requires c in s
    ensures i < |s| && s[i] == c && c !in s[..i]
  {
    if s[0] == c then 0 else 1 + IndexOf(s[1..], c)
  }

  /** `s.split(c)`: the pieces between the separators, `[""]` for the empty string. */
  function Split(s: string, c: char): (r: seq<string>)
    ensures |r| >= 1
    ensures forall k :: 0 <= k < |r| ==> c !in r[k]
    decreases |s|
  {
    if c !in s then [s]
    else
      var i := IndexOf(s, c);
      [s[..i]] + Split(s[i + 1..], c)
  }

  /** A piece free of the separator, then the separator: that piece comes first. */
  lemma SplitAfterPiece(a: string, c: char, rest: string)
    requires c !in a
    ensures Split(a + [c] + rest, c) == [a] + Split(rest, c)
  {
    var s := a + [c] + rest;
    IndexOfAfterPiece(a, c, rest);
    assert s[..|a|] == a && s[|a| + 1..] == rest;
  }

  lemma IndexOfAfterPiece(a: string, c: char, rest: string)
    requires c !in a
    ensures c in a + [c] + rest && IndexOf(a + [c] + rest, c) == |a|
  {
    var s := a + [c] + rest;
    assert s[|a|] == c;
    assert forall j :: 0 <= j < |a| ==> s[..|a|][j] == a[j];
  }

  /** `parts.join(sep)`. */
  function Join(parts: seq<string>, sep: string): string
  {
    if parts == [] then []
    else if |parts| == 1 then parts[0]
    else parts[0] + sep + Join(parts[1..], sep)
  }

  /** Splitting on a character and joining with it again gives the string back. */
  lemma {:induction false} JoinSplit(s: string, c: char)
    ensures Join(Split(s, c), [c]) == s
    decreases |s|
  {
    if c in s {
      var i := IndexOf(s, c);
      var rest := s[i + 1..];
      JoinSplit(rest, c);
      SplitAtFirst(s, c);
      JoinCons(s[..i], Split(rest, c), [c]);
      assert s == s[..i] + [c] + rest;
    }
  }

  lemma SplitAtFirst(s: string, c: char)
    requires c in s
    ensures Split(s, c) == [s[..IndexOf(s, c)]] + Split(s[IndexOf(s, c) + 1..], c)
  {
  }

  lemma JoinCons(a: string, r: seq<string>, sep: string)
    requires r != []
    ensures Join([a] + r, sep) == a + sep + Join(r, sep)
  {
    assert ([a] + r)[1..] == r;
  }

  /** `parts.indexOf(x)`. */
  function IndexOfPart(parts: seq<string>, x: string): (i: int)
    ensures -1 <= i < |parts|
    ensures i == -1 <==> x !in parts
    ensures i >= 0 ==> parts[i] == x && x !in parts[..i]
  {
    if parts == [] then -1
    else if parts[0] == x then 0
    else
      var k := IndexOfPart(parts[1..], x);
      assert parts == [parts[0]] + parts[1..];
      if k == -1 then -1
      else
        assert parts[..k + 1] == [parts[0]] + parts[1..][..k];
        k + 1
  }

  /** `parts.filter(Boolean)` on strings: the empty ones dropped. */
  function NonEmpty(parts: seq<string>): (r: seq<string>)
    ensures |r| <= |parts|
    ensures forall k :: 0 <= k < |r| ==> r[k] != [] && r[k] in parts
    ensures forall p :: p in parts && p != [] ==> p in r
  {
    if parts == [] then []
    else if parts[0] == [] then NonEmpty(parts[1..])
    else [parts[0]] + NonEmpty(parts[1..])
  }

  /** Filtering a list with one more piece at the end. */
  lemma {:induction false} NonEmptySnoc(parts: seq<string>, x: string)
    ensures NonEmpty(parts + [x]) == NonEmpty(parts) + (if x == [] then [] else [x])
  {
    if parts == [] {
      assert parts + [x] == [x] + [];
      NonEmptyCons(x, []);
    } else {
      var tail := if x == [] then [] else [x];
      SnocOfCons(parts, x);
      NonEmptyCons(parts[0], parts[1..] + [x]);
      NonEmptySnoc(parts[1..], x);
      NonEmptyCons(parts[0], parts[1..]);
      ConsAssoc(parts[0], NonEmpty(parts[1..]), tail);
    }
  }

  lemma SnocOfCons<T>(s: seq<T>, x: T)
    requires s != []
    ensures s + [x] == [s[0]] + (s[1..] + [x]) && s == [s[0]] + s[1..]
  {
  }

  lemma ConsAssoc<T>(a: T, s: seq<T>, t: seq<T>)
    ensures [a] + (s + t) == ([a] + s) + t
  {
  }

  /** `pathname.split('/').filter(Boolean)`. */
  function PathSegments(path: string): (r: seq<string>)
    ensures forall k :: 0 <= k < |r| ==> r[k] != [] && '/' !in r[k]
  {
    NonEmpty(Split(path, '/'))
  }

  lemma NonEmptyCons(x: string, t: seq<string>)
    ensures NonEmpty([x] + t) == if x == [] then NonEmpty(t) else [x] + NonEmpty(t)
  {
    assert ([x] + t)[1..] == t;
  }

  /** A leading `/segment` contributes exactly that segment. */
  lemma SegmentsCons(a: string, rest: string)
    requires a != [] && '/' !in a
    requires rest == [] || rest[0] == '/'
    ensures PathSegments("/" + a + rest) == [a] + PathSegments(rest)
  {
    LeadingSlash(a + rest);
    assert "/" + a + rest == "/" + (a + rest);
    if rest == [] {
      SingleSegment(a);
      assert a + rest == a;
    } else {
      var r' := rest[1..];
      assert rest == "/" + r';
      assert a + rest == a + "/" + r';
      SegmentThenSlash(a, r');
      LeadingSlash(r');
    }
  }

  lemma SingleSegment(a: string)
    requires a != [] && '/' !in a
    ensures PathSegments(a) == [a] && PathSegments([]) == []
  {
    assert Split(a, '/') == [a];
    NonEmptyCons(a, []);
    assert Split([], '/') == [[]];
    NonEmptyCons([], []);
  }

  lemma SegmentThenSlash(a: string, r: string)
    requires a != [] && '/' !in a
    ensures PathSegments(a + "/" + r) == [a] + PathSegments(r)
  {
    assert a + "/" + r == a + ['/'] + r;
    SplitAfterPiece(a, '/', r);
    NonEmptyCons(a, Split(r, '/'));
  }

  /** A leading `/` contributes an empty piece, which the filter drops. */
  lemma LeadingSlash(t: string)
    ensures PathSegments("/" + t) == PathSegments(t)
  {
    assert "/" + t == [] + ['/'] + t;
    SplitAfterPiece([], '/', t);
    NonEmptyCons([], Split(t, '/'));
  }

  // ---------------------------------------------------------------------------
  // decimal numerals

  function DigitValue(c: char): nat requires IsDigit(c) { (c as int) - ('0' as int) }

  function DigitChar(d: nat): (c: char)
    requires d < 10
    ensures IsDigit(c) && DigitValue(c) == d
  {
    (('0' as int) + d) as char
  }

  /** `Number(s)` for a string of ASCII digits (leading zeros allowed). */
  function DigitsValue(s: string): nat
    requires AllDigits(s)
  {
    if s == [] then 0 else 10 * DigitsValue(s[..|s| - 1]) + DigitValue(s[|s| - 1])
  }

  /** `String(n)` for a non-negative integer. */
  function NatToString(n: nat): (r: string)
    ensures r != [] && AllDigits(r)
  {
    if n < 10 then [DigitChar(n)] else NatToString(n / 10) + [DigitChar(n % 10)]
  }

  /** `Number(String(n)) === n`. */
  lemma {:induction false} NatToStringRoundTrip(n: nat)
    ensures DigitsValue(NatToString(n)) == n
  {
    if n >= 10 {
      NatToStringRoundTrip(n / 10);
      var r := NatToString(n);
      assert r[..|r| - 1] == NatToString(n / 10);
    }
  }

  /** `s.replace(/[^\d]/g, '')`. */
  function DigitsOnly(s: string): (r: string)
    ensures AllDigits(r)
    ensures r == [] <==> (forall i :: 0 <= i < |s| ==> !IsDigit(s[i]))
  {
    if s == [] then []
    else if IsDigit(s[0]) then [s[0]] + DigitsOnly(s[1..])
    else
      assert forall i :: 1 <= i < |s| ==> s[i] == s[1..][i - 1];
      DigitsOnly(s[1..])
  }

  /** `Number(s.replace(/[^\d]/g, '') || '0')`. */
  function NumberOfDigitsIn(s: string): nat { DigitsValue(DigitsOnly(s)) }

  // ---------------------------------------------------------------------------
  // case mapping: the one-to-one pairs of the Unicode case tables for Basic
  // Latin, Latin-1, Latin Extended-A, Cyrillic and the Cyrillic Supplement;
  // every other character is unchanged

  /**
   * A run of case pairs: the upper-case letters from `lo` to `hi` (every
   * other code when `alternate`), each with its lower case `delta` codes on.
   */
  datatype CaseRun = CaseRun(lo: int, hi: int, alternate: bool, delta: int)

  /** The number of runs in the table. */
  const RunCount := 14

  /** The case pairs beyond Basic Latin, run by run in code order. */
  function Run(k: nat): CaseRun
    requires k < RunCount
  {
    match k
    case 0 => CaseRun(0x00C0, 0x00D6, false, 32)
    case 1 => CaseRun(0x00D8, 0x00DE, false, 32)
    case 2 => CaseRun(0x0100, 0x012E, true, 1)
    case 3 => CaseRun(0x0132, 0x0136, true, 1)
    case 4 => CaseRun(0x0139, 0x0147, true, 1)
    case 5 => CaseRun(0x014A, 0x0176, true, 1)
    case 6 => CaseRun(0x0178, 0x0178, false, -121)
    case 7 => CaseRun(0x0179, 0x017D, true, 1)
    case 8 => CaseRun(0x0400, 0x040F, false, 80)
    case 9 => CaseRun(0x0410, 0x042F, false, 32)
    case 10 => CaseRun(0x0460, 0x0480, true, 1)
    case 11 => CaseRun(0x048A, 0x04BE, true, 1)
    case 12 => CaseRun(0x04C1, 0x04CD, true, 1)
    case _ => CaseRun(0x04D0, 0x052E, true, 1)
  }

  predicate UpperIn(r: CaseRun, n: int) {
    r.lo <= n <= r.hi && (!r.alternate || (n - r.lo) % 2 == 0)
  }

  predicate LowerIn(r: CaseRun, n: int) { UpperIn(r, n - r.delta) }

  /** The codes the table speaks about: Latin-1 to the end of the Cyrillic Supplement. */
  predicate InTable(n: int) { 0x00C0 <= n <= 0x052F }

  /** Latin (0), basic Cyrillic up to U+045F (1), the Cyrillic above it (2). */
  function Zone(n: int): int { if n <= 0x03FF then 0 else if n <= 0x045F then 1 else 2 }

  /** A run whose upper and lower halves lie in one zone of the table and never meet. */
  predicate RunOk(r: CaseRun) {
    r.lo <= r.hi && InTable(r.lo) && InTable(r.hi) && InTable(r.lo + r.delta) && InTable(r.hi + r.delta)
    && Zone(r.lo) == Zone(r.hi) == Zone(r.lo + r.delta) == Zone(r.hi + r.delta)
    && (if r.alternate then r.delta % 2 == 1 else r.hi - r.lo < r.delta || r.hi - r.lo < -r.delta)
  }

  predicate Disjoint(x1: int, y1: int, x2: int, y2: int) { y1 < x2 || y2 < x1 }

  /** Two runs share no code, neither as upper nor as lower case. */
  predicate RunsApart(a: CaseRun, b: CaseRun) {
    && Disjoint(a.lo, a.hi, b.lo, b.hi)
    && Disjoint(a.lo + a.delta, a.hi + a.delta, b.lo + b.delta, b.hi + b.delta)
    && Disjoint(a.lo, a.hi, b.lo + b.delta, b.hi + b.delta)
    && Disjoint(a.lo + a.delta, a.hi + a.delta, b.lo, b.hi)
  }

  lemma RunAt(k: nat)
    requires k < RunCount
    ensures RunOk(Run(k))
  {
  }

  lemma RunsAt(i: nat, j: nat)
    requires i < j < RunCount
    ensures RunsApart(Run(i), Run(j))
  {
  }

  /** No code is the upper case of one run and the lower case of any. */
  lemma UpperNotLower(n: int, i: nat, j: nat)
    requires i < RunCount && j < RunCount && UpperIn(Run(i), n)
    ensures !LowerIn(Run(j), n)
  {
    RunAt(i);
    if i < j { RunsAt(i, j); } else if j < i { RunsAt(j, i); }
  }

  lemma UpperUnique(n: int, i: nat, j: nat)
    requires i < RunCount && j < RunCount && UpperIn(Run(i), n) && UpperIn(Run(j), n)
    ensures i == j
  {
    if i < j { RunsAt(i, j); } else if j < i { RunsAt(j, i); }
  }

  lemma LowerUnique(n: int, i: nat, j: nat)
    requires i < RunCount && j < RunCount && LowerIn(Run(i), n) && LowerIn(Run(j), n)
    ensures i == j
  {
    if i < j { RunsAt(i, j); } else if j < i { RunsAt(j, i); }
  }

  /** The lower case of `n` by the runs from `k` on: the first run holding it as upper case decides. */
  function LowerFrom(n: int, k: nat): (r: int)
    requires k <= RunCount
    ensures r == n || (InTable(n) && InTable(r) && Zone(n) == Zone(r))
    decreases RunCount - k
  {
    if k == RunCount then n
    else if UpperIn(Run(k), n) then RunAt(k); n + Run(k).delta
    else LowerFrom(n, k + 1)
  }

  /** The upper case of `n` by the runs from `k` on. */
  function UpperFrom(n: int, k: nat): (r: int)
    requires k <= RunCount
    ensures r == n || (InTable(n) && InTable(r) && Zone(n) == Zone(r))
    decreases RunCount - k
  {
    if k == RunCount then n
    else if LowerIn(Run(k), n) then RunAt(k); n - Run(k).delta
    else UpperFrom(n, k + 1)
  }

  /** A code that is upper case in run `i` lower-cases by that run. */
  lemma {:induction false} LowerFromUpper(n: int, k: nat, i: nat)
    requires k <= i < RunCount && UpperIn(Run(i), n)
    ensures LowerFrom(n, k) == n + Run(i).delta
    decreases RunCount - k
  {
    if !UpperIn(Run(k), n) {
      LowerFromUpper(n, k + 1, i);
    } else {
      UpperUnique(n, k, i);
    }
  }

  lemma {:induction false} LowerFromNone(n: int, k: nat)
    requires k <= RunCount && forall i :: k <= i < RunCount ==> !UpperIn(Run(i), n)
    ensures LowerFrom(n, k) == n
    decreases RunCount - k
  {
    if k < RunCount { LowerFromNone(n, k + 1); }
  }

  lemma {:induction false} UpperFromLower(n: int, k: nat, i: nat)
    requires k <= i < RunCount && LowerIn(Run(i), n)
    ensures UpperFrom(n, k) == n - Run(i).delta
    decreases RunCount - k
  {
    if !LowerIn(Run(k), n) {
      UpperFromLower(n, k + 1, i);
    } else {
      LowerUnique(n, k, i);
    }
  }

  lemma {:induction false} UpperFromNone(n: int, k: nat)
    requires k <= RunCount && forall i :: k <= i < RunCount ==> !LowerIn(Run(i), n)
    ensures UpperFrom(n, k) == n
    decreases RunCount - k
  {
    if k < RunCount { UpperFromNone(n, k + 1); }
  }

  /** Lower-casing by the table twice is lower-casing once, and it undoes upper-casing. */
  lemma TableRoundTrip(n: int)
    ensures LowerFrom(LowerFrom(n, 0), 0) == LowerFrom(n, 0)
    ensures LowerFrom(UpperFrom(n, 0), 0) == LowerFrom(n, 0)
  {
    if i :| 0 <= i < RunCount && UpperIn(Run(i), n) {
      LowerFromUpper(n, 0, i);
      var l := n + Run(i).delta;
      assert LowerIn(Run(i), l);
      forall j | 0 <= j < RunCount ensures !UpperIn(Run(j), l) {
        if UpperIn(Run(j), l) { UpperNotLower(l, j, i); }
      }
      LowerFromNone(l, 0);
      forall j | 0 <= j < RunCount ensures !LowerIn(Run(j), n) {
        UpperNotLower(n, i, j);
      }
      UpperFromNone(n, 0);
    } else {
      LowerFromNone(n, 0);
      if i :| 0 <= i < RunCount && LowerIn(Run(i), n) {
        UpperFromLower(n, 0, i);
        LowerFromUpper(n - Run(i).delta, 0, i);
      } else {
        UpperFromNone(n, 0);
      }
    }
  }

  /** The mapping beyond Basic Latin. */
  function WideLower(c: char): (r: char)
    ensures r == c || (InTable(c as int) && InTable(r as int) && Zone(c as int) == Zone(r as int))
  {
    var n := LowerFrom(c as int, 0);
    if n == c as int then c else n as char
  }

  function WideUpper(c: char): (r: char)
    ensures r == c || (InTable(c as int) && InTable(r as int) && Zone(c as int) == Zone(r as int))
  {
    var n := UpperFrom(c as int, 0);
    if n == c as int then c else n as char
  }

  function LowerChar(c: char): char {
    if c < '\U{0080}' then (if 'A' <= c <= 'Z' then ((c as int) + 32) as char else c)
    else WideLower(c)
  }

  function UpperChar(c: char): char {
    if c < '\U{0080}' then (if 'a' <= c <= 'z' then ((c as int) - 32) as char else c)
    else WideUpper(c)
  }

  /** Basic Cyrillic lower-cases by the table: Ѐ to Џ by 80 places, А to Я by 32, the rest stays. */
  lemma LowerBasicCyrillic(c: char)
    requires '\U{0400}' <= c <= '\U{045F}'
    ensures LowerChar(c) == if c <= '\U{040F}' then ((c as int) + 80) as char
                            else if c <= '\U{042F}' then ((c as int) + 32) as char else c
  {
    var n := c as int;
    if n <= 0x040F {
      LowerFromUpper(n, 0, 8);
    } else if n <= 0x042F {
      LowerFromUpper(n, 0, 9);
    } else {
      forall j | 0 <= j < RunCount ensures !UpperIn(Run(j), n) {
        if UpperIn(Run(j), n) { UpperNotLower(n, j, if n <= 0x044F then 9 else 8); }
      }
      LowerFromNone(n, 0);
    }
  }

  /** Basic Cyrillic upper-cases by the table: ѐ to џ by 80 places, а to я by 32, the rest stays. */
  lemma UpperBasicCyrillic(c: char)
    requires '\U{0400}' <= c <= '\U{045F}'
    ensures UpperChar(c) == if c >= '\U{0450}' then ((c as int) - 80) as char
                            else if c >= '\U{0430}' then ((c as int) - 32) as char else c
  {
    var n := c as int;
    if n >= 0x0450 {
      UpperFromLower(n, 0, 8);
    } else if n >= 0x0430 {
      UpperFromLower(n, 0, 9);
    } else {
      forall j | 0 <= j < RunCount ensures !LowerIn(Run(j), n) {
        UpperNotLower(n, if n <= 0x040F then 8 else 9, j);
      }
      UpperFromNone(n, 0);
    }
  }

  /** The Latin Extended letters of a brand such as PAŞABAHÇE pair with their lower case. */
  lemma TurkishLetters()
    ensures LowerChar('Ş') == 'ş' && LowerChar('Ç') == 'ç'
    ensures UpperChar('ş') == 'Ş' && UpperChar('ç') == 'Ç'
  {
    LowerFromUpper(0x015E, 0, 5);
    LowerFromUpper(0x00C7, 0, 0);
    UpperFromLower(0x015F, 0, 5);
    UpperFromLower(0x00E7, 0, 0);
  }

  /** Lower-casing is idempotent and forgets an earlier upper-casing. */
  lemma CharRoundTrip(c: char)
    ensures LowerChar(LowerChar(c)) == LowerChar(c)
    ensures LowerChar(UpperChar(c)) == LowerChar(c)
  {
    if c >= '\U{0080}' {
      WideRoundTrip(c);
    }
  }

  lemma WideRoundTrip(c: char)
    requires c >= '\U{0080}'
    ensures WideLower(WideLower(c)) == WideLower(c)
    ensures WideLower(WideUpper(c)) == WideLower(c)
  {
    var n := c as int;
    TableRoundTrip(n);
    var l := WideLower(c);
    assert l as int == LowerFrom(n, 0);
    var u := WideUpper(c);
    assert u as int == UpperFrom(n, 0);
  }

  /** An upper-case letter as `/[A-ZА-ЯЁ]/` sees it. */
  predicate IsUpperLetter(c: char) {
    ('A' <= c <= 'Z') || ('\U{0410}' <= c <= '\U{042F}') || c == '\U{0401}'
  }

  /** `s.toLowerCase()`. */
  function Lower(s: string): (r: string)
    ensures |r| == |s| && forall i :: 0 <= i < |s| ==> r[i] == LowerChar(s[i])
  {
    if s == [] then [] else [LowerChar(s[0])] + Lower(s[1..])
  }

  /** `s.toUpperCase()`. */
  function Upper(s: string): (r: string)
    ensures |r| == |s| && forall i :: 0 <= i < |s| ==> r[i] == UpperChar(s[i])
  {
    if s == [] then [] else [UpperChar(s[0])] + Upper(s[1..])
  }

  /** Lower-casing forgets an earlier upper-casing. */
  lemma LowerOfUpper(s: string)
    ensures Lower(Upper(s)) == Lower(s)
  {
    forall i | 0 <= i < |s| ensures LowerChar(UpperChar(s[i])) == LowerChar(s[i]) {
      CharRoundTrip(s[i]);
    }
  }

  lemma LowerAppend(a: string, b: string)
    ensures Lower(a + b) == Lower(a) + Lower(b)
  {
    assert forall i :: 0 <= i < |a + b| ==> Lower(a + b)[i] == (Lower(a) + Lower(b))[i];
  }

  lemma CaseKeepsWs(c: char)
    ensures IsWs(LowerChar(c)) == IsWs(c) && IsWs(UpperChar(c)) == IsWs(c)
  {
    if c >= '\U{0080}' {
      assert !InTable(c as int) ==> LowerChar(c) == c && UpperChar(c) == c;
    }
  }

  /** Lower-casing twice is lower-casing once. */
  lemma LowerIdempotent(s: string)
    ensures Lower(Lower(s)) == Lower(s)
  {
    forall i | 0 <= i < |s| ensures LowerChar(LowerChar(s[i])) == LowerChar(s[i]) {
      CharRoundTrip(s[i]);
    }
  }
}
