/**
 * The enrichment pass over the catalog: refetch each product's source page,
 * take the specification pairs and the description the page offers after
 * cleaning, fall back to a web search when the data stays weak, and write
 * the catalog back. Page parsing, the search service and the file system
 * are parameters: the page arrives as the texts the selectors pick, a
 * search query as the specs and description extracted from its first hit.
 */
module Enrich {
  import opened Wrappers
  import opened Text
  import opened Sentences
  import opened SpecMap
  import opened Dedup
  import opened Casing
  import Scrape
  import ComplexBar
  import Retry

  // ---------------------------------------------------------------------------
  // DROP_PATTERNS

  /**
   * One element of a noise pattern, matched ignoring case: a character, one
   * of two characters (`[иы]`), an optional character (`-?`), or a run of
   * white space (`\s+`). Every pattern starts with a character, so the
   * greedy run of white space never needs to give characters back.
   */
  datatype Tok = Lit(c: char) | OneOf(a: char, b: char) | Optional(c: char) | Spaces

  /** A lower-case word of a pattern: its letters. */
  function Word(w: string): (r: seq<Tok>)
    ensures |r| == |w| && forall i :: 0 <= i < |w| ==> r[i] == Lit(w[i])
  {
    seq(|w|, i requires 0 <= i < |w| => Lit(w[i]))
  }

  /** Lower-case words separated by `\s+`. */
  function Words(ws: seq<string>): (r: seq<Tok>)
    ensures ws != [] && ws[0] != [] ==> r != [] && r[0] == Lit(ws[0][0])
    decreases |ws|
  {
    if ws == [] then []
    else if |ws| == 1 then Word(ws[0])
    else Word(ws[0]) + [Spaces] + Words(ws[1..])
  }

  /** What a noise pattern does: delete every match, or cut the text at the first match (`…[\s\S]*`). */
  datatype Drop = DeleteAll(toks: seq<Tok>) | CutFrom(toks: seq<Tok>)

  /** The pattern texts of `DROP_PATTERNS`, lower-cased. */
  const FindSimilar: seq<Tok> := Words(["найти", "похож"]) + [OneOf('и', 'ы'), Lit('е')]
  const ReportError: seq<Tok> := Words(["сообщить", "о", "неточности"])
  const StoreAddress: seq<Tok> := Words(["магазин", "и", "адрес"])
  const OpeningHours: seq<Tok> := Words(["режим", "работы"])
  const Phone: seq<Tok> := Word("телефон")
  const Availability: seq<Tok> := Word("доступность")
  const Warehouse: seq<Tok> := Word("склад")
  const StoreName: seq<Tok> := Word("комплекс") + [Optional('-')] + Word("бар")
  const OnOrder: seq<Tok> := Words(["под", "заказ"])
  const OnRequest: seq<Tok> := Words(["по", "вашему", "запросу"])
  const MoveMap: seq<Tok> := Words(["двигайте", "карту"])

  /** The eleven noise patterns, in order: the first is deleted wherever it occurs, the others cut the text. */
  const DropPatterns: seq<Drop> := [
    DeleteAll(FindSimilar), CutFrom(ReportError), CutFrom(StoreAddress), CutFrom(OpeningHours),
    CutFrom(Phone), CutFrom(Availability), CutFrom(Warehouse), CutFrom(StoreName),
    CutFrom(OnOrder), CutFrom(OnRequest), CutFrom(MoveMap)
  ]

  /** The length of the white-space run at `i`. */
  function WsRun(s: string, i: nat): (n: nat)
    requires i <= |s|
    ensures i + n <= |s| && forall j :: i <= j < i + n ==> IsWs(s[j])
    ensures i + n < |s| ==> !IsWs(s[i + n])
    decreases |s| - i
  {
    if i < |s| && IsWs(s[i]) then 1 + WsRun(s, i + 1) else 0
  }

  function Succ(m: Option<nat>, n: nat): Option<nat> {
    if m.Some? then Some(m.value + n) else None
  }

  /** The length of the match of `toks` at `i`, ignoring case, if there is one. */
  function MatchLen(s: string, i: nat, toks: seq<Tok>): (r: Option<nat>)
    requires i <= |s|
    ensures r.Some? ==> i + r.value <= |s|
    decreases |toks|
  {
    if toks == [] then Some(0)
    else
      match toks[0]
      case Lit(c) =>
        if i < |s| && LowerChar(s[i]) == c then Succ(MatchLen(s, i + 1, toks[1..]), 1) else None
      case OneOf(a, b) =>
        if i < |s| && (LowerChar(s[i]) == a || LowerChar(s[i]) == b) then Succ(MatchLen(s, i + 1, toks[1..]), 1) else None
      case Optional(c) =>
        if i < |s| && LowerChar(s[i]) == c && MatchLen(s, i + 1, toks[1..]).Some? then Succ(MatchLen(s, i + 1, toks[1..]), 1)
        else MatchLen(s, i, toks[1..])
      case Spaces =>
        var n := WsRun(s, i);
        if n == 0 then None else Succ(MatchLen(s, i + n, toks[1..]), n)
  }

  /** Texts that agree up to case have the same white-space runs. */
  lemma {:induction false} WsRunUpToCase(s: string, t: string, i: nat)
    requires SameUpToCase(s, t) && i <= |s|
    ensures WsRun(s, i) == WsRun(t, i)
    decreases |s| - i
  {
    if i < |s| {
      CaseKeepsWs(s[i]);
      CaseKeepsWs(t[i]);
      WsRunUpToCase(s, t, i + 1);
    }
  }

  /** Matching ignores case: texts that agree up to case match the same patterns, with the same lengths. */
  lemma {:induction false} MatchUpToCase(s: string, t: string, i: nat, toks: seq<Tok>)
    requires SameUpToCase(s, t) && i <= |s|
    ensures MatchLen(s, i, toks) == MatchLen(t, i, toks)
    decreases |toks|, 1
  {
    if toks != [] {
      if toks[0].Spaces? {
        SpacesUpToCase(s, t, i, toks);
      } else {
        CharUpToCase(s, t, i, toks);
      }
    }
  }

  lemma {:induction false} CharUpToCase(s: string, t: string, i: nat, toks: seq<Tok>)
    requires SameUpToCase(s, t) && i <= |s| && toks != [] && !toks[0].Spaces?
    ensures MatchLen(s, i, toks) == MatchLen(t, i, toks)
    decreases |toks|, 0
  {
    if i < |s| {
      assert LowerChar(s[i]) == LowerChar(t[i]);
      MatchUpToCase(s, t, i + 1, toks[1..]);
    }
    if toks[0].Optional? {
      MatchUpToCase(s, t, i, toks[1..]);
    }
  }

  lemma {:induction false} SpacesUpToCase(s: string, t: string, i: nat, toks: seq<Tok>)
    requires SameUpToCase(s, t) && i <= |s| && toks != [] && toks[0].Spaces?
    ensures MatchLen(s, i, toks) == MatchLen(t, i, toks)
    decreases |toks|, 0
  {
    var n := WsRun(s, i);
    WsRunUpToCase(s, t, i);
    assert WsRun(t, i) == n;
    if n > 0 {
      MatchUpToCase(s, t, i + n, toks[1..]);
    }
  }

  /** `s.replace(re, '')` with the global flag, from `k` on; an empty match keeps one character. */
  function DeleteFrom(s: string, k: nat, toks: seq<Tok>): (r: string)
    requires k <= |s|
    ensures |r| <= |s| - k
    decreases |s| - k
  {
    if k == |s| then []
    else
      var m := MatchLen(s, k, toks);
      if m.Some? && m.value > 0 then DeleteFrom(s, k + m.value, toks)
      else [s[k]] + DeleteFrom(s, k + 1, toks)
  }

  /** The first position at or after `k` where `toks` matches, `|s|` when there is none. */
  function FirstMatch(s: string, k: nat, toks: seq<Tok>): (r: nat)
    requires k <= |s|
    ensures k <= r <= |s|
    ensures forall j :: k <= j < r ==> MatchLen(s, j, toks).None?
    ensures r < |s| ==> MatchLen(s, r, toks).Some?
    decreases |s| - k
  {
    if k == |s| then |s| else if MatchLen(s, k, toks).Some? then k else FirstMatch(s, k + 1, toks)
  }

  function ApplyDrop(d: Drop, s: string): (r: string)
    ensures |r| <= |s|
  {
    match d
    case DeleteAll(toks) => DeleteFrom(s, 0, toks)
    case CutFrom(toks) => s[..FirstMatch(s, 0, toks)]
  }

  /** The patterns applied one after the other. */
  function Dropped(ds: seq<Drop>, s: string): string {
    if ds == [] then s else ApplyDrop(ds[|ds| - 1], Dropped(ds[..|ds| - 1], s))
  }

  /** Cutting at a pattern keeps the text before its first match: no match starts there. */
  lemma CutFromSpec(s: string, toks: seq<Tok>)
    ensures var r := ApplyDrop(CutFrom(toks), s);
      StartsWith(s, r)
      && (forall j :: 0 <= j < |r| ==> MatchLen(s, j, toks).None?)
      && (|r| < |s| ==> MatchLen(s, |r|, toks).Some?)
  {
  }

  /** Every run of white space in the pattern is followed by a letter, as in all of `DROP_PATTERNS`. */
  predicate WellFormed(toks: seq<Tok>) {
    forall j :: 0 <= j < |toks| && toks[j].Spaces? ==> j + 1 < |toks| && (toks[j + 1].Lit? || toks[j + 1].OneOf?)
  }

  lemma WellFormedTail(toks: seq<Tok>)
    requires toks != [] && WellFormed(toks)
    ensures WellFormed(toks[1..])
  {
    forall j | 0 <= j < |toks[1..]| && toks[1..][j].Spaces?
      ensures j + 1 < |toks[1..]| && (toks[1..][j + 1].Lit? || toks[1..][j + 1].OneOf?)
    {
      assert toks[j + 1].Spaces?;
    }
  }

  /** The white-space run at `i` of a prefix that goes on past the run is the run of the whole text. */
  lemma {:induction false} WsRunPrefix(r: string, s: string, i: nat)
    requires StartsWith(s, r) && i <= |r| && i + WsRun(r, i) < |r|
    ensures WsRun(s, i) == WsRun(r, i)
    decreases |r| - i
  {
    if i < |r| && IsWs(r[i]) {
      WsRunPrefix(r, s, i + 1);
    }
  }

  /** A match inside a prefix of the text is a match in the whole text. */
  lemma {:induction false} MatchPrefix(r: string, s: string, i: nat, toks: seq<Tok>)
    requires StartsWith(s, r) && i <= |r| && WellFormed(toks) && MatchLen(r, i, toks).Some?
    ensures MatchLen(s, i, toks).Some?
    decreases |toks|
  {
    if toks != [] {
      WellFormedTail(toks);
      var rest := toks[1..];
      match toks[0]
      case Lit(c) => MatchPrefix(r, s, i + 1, rest);
      case OneOf(a, b) => MatchPrefix(r, s, i + 1, rest);
      case Optional(c) =>
        if i < |r| && LowerChar(r[i]) == c && MatchLen(r, i + 1, rest).Some? {
          MatchPrefix(r, s, i + 1, rest);
        } else {
          MatchPrefix(r, s, i, rest);
        }
      case Spaces =>
        var n := WsRun(r, i);
        assert rest[0].Lit? || rest[0].OneOf?;
        assert i + n < |r|;
        WsRunPrefix(r, s, i);
        MatchPrefix(r, s, i + n, rest);
    }
  }

  /** Letters put before a well-formed pattern keep it well formed. */
  lemma WellFormedAppend(a: seq<Tok>, u: seq<Tok>)
    requires (forall j :: 0 <= j < |a| ==> !a[j].Spaces?) && WellFormed(u)
    ensures WellFormed(a + u)
  {
    var t := a + u;
    forall j | 0 <= j < |t| && t[j].Spaces?
      ensures j + 1 < |t| && (t[j + 1].Lit? || t[j + 1].OneOf?)
    {
      assert t[j] == u[j - |a|];
      assert t[j + 1] == u[j + 1 - |a|];
    }
  }

  /** Letters, a run of white space, then a pattern that starts with a letter. */
  lemma WellFormedSpace(a: seq<Tok>, u: seq<Tok>)
    requires (forall j :: 0 <= j < |a| ==> !a[j].Spaces?) && u != [] && u[0].Lit? && WellFormed(u)
    ensures WellFormed(a + [Spaces] + u)
  {
    var t := a + [Spaces] + u;
    forall j | 0 <= j < |t| && t[j].Spaces?
      ensures j + 1 < |t| && (t[j + 1].Lit? || t[j + 1].OneOf?)
    {
      if j > |a| {
        assert t[j] == u[j - |a| - 1];
        assert t[j + 1] == u[j - |a|];
      } else if j == |a| {
        assert t[j + 1] == u[0];
      }
    }
  }

  /** Non-empty words separated by white space, followed by a well-formed rest. */
  lemma {:induction false} WordsWellFormed(ws: seq<string>, rest: seq<Tok>)
    requires (forall i :: 0 <= i < |ws| ==> ws[i] != []) && WellFormed(rest)
    ensures WellFormed(Words(ws) + rest)
    decreases |ws|
  {
    if ws == [] {
      assert Words(ws) + rest == rest;
    } else if |ws| == 1 {
      WellFormedAppend(Word(ws[0]), rest);
    } else {
      WordsWellFormed(ws[1..], rest);
      var u := Words(ws[1..]) + rest;
      assert ws[1..][0] == ws[1];
      WellFormedSpace(Word(ws[0]), u);
      assert Words(ws) + rest == Word(ws[0]) + [Spaces] + u;
    }
  }

  lemma OneWordWellFormed(w: string)
    ensures WellFormed(Word(w))
  {
  }

  lemma WordsOnlyWellFormed(ws: seq<string>)
    requires forall i :: 0 <= i < |ws| ==> ws[i] != []
    ensures WellFormed(Words(ws))
  {
    WordsWellFormed(ws, []);
    assert Words(ws) + [] == Words(ws);
  }

  /** Each of `DROP_PATTERNS` is well formed. */
  lemma FindSimilarWellFormed() ensures WellFormed(FindSimilar) {
    WordsWellFormed(["найти", "похож"], [OneOf('и', 'ы'), Lit('е')]);
  }
  lemma ReportErrorWellFormed() ensures WellFormed(ReportError) { WordsOnlyWellFormed(["сообщить", "о", "неточности"]); }
  lemma StoreAddressWellFormed() ensures WellFormed(StoreAddress) { WordsOnlyWellFormed(["магазин", "и", "адрес"]); }
  lemma OpeningHoursWellFormed() ensures WellFormed(OpeningHours) { WordsOnlyWellFormed(["режим", "работы"]); }
  lemma PhoneWellFormed() ensures WellFormed(Phone) { OneWordWellFormed("телефон"); }
  lemma AvailabilityWellFormed() ensures WellFormed(Availability) { OneWordWellFormed("доступность"); }
  lemma WarehouseWellFormed() ensures WellFormed(Warehouse) { OneWordWellFormed("склад"); }
  lemma StoreNameWellFormed() ensures WellFormed(StoreName) {
    WellFormedAppend(Word("комплекс"), [Optional('-')] + Word("бар"));
    assert StoreName == Word("комплекс") + ([Optional('-')] + Word("бар"));
  }
  lemma OnOrderWellFormed() ensures WellFormed(OnOrder) { WordsOnlyWellFormed(["под", "заказ"]); }
  lemma OnRequestWellFormed() ensures WellFormed(OnRequest) { WordsOnlyWellFormed(["по", "вашему", "запросу"]); }
  lemma MoveMapWellFormed() ensures WellFormed(MoveMap) { WordsOnlyWellFormed(["двигайте", "карту"]); }

  /** After the cut no match of the pattern is left anywhere in the text. */
  lemma CutLeavesNoMatch(s: string, toks: seq<Tok>)
    requires WellFormed(toks)
    ensures var r := ApplyDrop(CutFrom(toks), s);
      forall j :: 0 <= j < |r| ==> MatchLen(r, j, toks).None?
  {
    var r := ApplyDrop(CutFrom(toks), s);
    forall j | 0 <= j < |r|
      ensures MatchLen(r, j, toks).None?
    {
      if MatchLen(r, j, toks).Some? {
        MatchPrefix(r, s, j, toks);
      }
    }
  }

  /** Deleting the matches of a pattern that matches nowhere keeps the text. */
  lemma {:induction false} DeleteNothing(s: string, k: nat, toks: seq<Tok>)
    requires k <= |s| && forall j :: k <= j < |s| ==> MatchLen(s, j, toks).None?
    ensures DeleteFrom(s, k, toks) == s[k..]
    decreases |s| - k
  {
    if k < |s| {
      DeleteNothing(s, k + 1, toks);
      assert s[k..] == [s[k]] + s[k + 1..];
    }
  }

  /** Every deleted stretch is a match: deleting from a match start drops the match and goes on after it. */
  lemma DeleteAtMatch(s: string, k: nat, toks: seq<Tok>)
    requires k < |s| && MatchLen(s, k, toks).Some? && MatchLen(s, k, toks).value > 0
    ensures DeleteFrom(s, k, toks) == DeleteFrom(s, k + MatchLen(s, k, toks).value, toks)
  {
  }

  // ---------------------------------------------------------------------------
  // sanitizeValue

  /** `sanitizeValue(v)`: collapse; blank gives ''; drop the noise; collapse again; normalise case. */
  function Sanitize(v: string): string {
    var s := CollapseWs(v);
    if s == [] then [] else NormalizeCase(CollapseWs(Dropped(DropPatterns, s)))
  }

  lemma DroppedSnoc(ds: seq<Drop>, i: nat, s: string)
    requires i < |ds|
    ensures Dropped(ds[..i + 1], s) == ApplyDrop(ds[i], Dropped(ds[..i], s))
  {
    assert ds[..i + 1][..i] == ds[..i];
  }

  /** The patterns applied one after the other, as the loop in `sanitizeValue` does. */
  method DropAll(ds: seq<Drop>, s0: string) returns (s: string)
    ensures s == Dropped(ds, s0)
  {
    s := s0;
    for i := 0 to |ds|
      invariant s == Dropped(ds[..i], s0)
    {
      DroppedSnoc(ds, i, s0);
      s := ApplyDrop(ds[i], s);
    }
    assert ds[..|ds|] == ds;
  }

  method SanitizeValue(v: string) returns (r: string)
    ensures r == Sanitize(v)
  {
    var s := CollapseWs(v);
    if s == [] {
      return [];
    }
    s := DropAll(DropPatterns, s);
    s := CollapseWs(s);
    r := NormalizeCase(s);
  }

  /**
   * A cleaned value is collapsed, in normal case (normalising it again
   * changes nothing), and empty for blank input.
   */
  lemma SanitizeSpec(v: string)
    ensures var r := Sanitize(v);
      Collapsed(r) && NormalizeCase(r) == r
      && (NoNonWs(v) ==> r == [])
  {
    CollapseWsEmpty(v);
    var s := CollapseWs(v);
    if s != [] {
      var d := CollapseWs(Dropped(DropPatterns, s));
      NormalizeCaseShape(d);
      NormalizeCaseIdempotent(d);
    }
  }

  // ---------------------------------------------------------------------------
  // extractSpecs

  /** The menu labels never kept as specification keys, lower-cased (compared ignoring case). */
  const MenuLabels: seq<string> := [
    "бренды", "серии", "новинки", "ликвидация", "блог", "каталог по заведениям",
    "фуршетные линии", "технологическое оборудование", "вспомогательный инвентарь",
    "униформа", "хозяйственные товары"
  ]

  /** The anchored, case-insensitive menu test on a collapsed key. */
  predicate IsMenuKey(key: string) {
    Lower(key) in MenuLabels
  }

  /** A pair `add` keeps: a non-empty key of at most 80 characters that is no menu label, a non-empty value of at most 500. */
  predicate Acceptable(e: Entry) {
    e.key != [] && e.value != [] && |e.key| <= 80 && |e.value| <= 500 && !IsMenuKey(e.key)
  }

  /** What `add(k, v)` keeps of a raw pair: the cleaned pair when it is acceptable. */
  function Cleaned(e: Entry): (r: Option<Entry>)
    ensures r.Some? ==> r.value.key == CollapseWs(e.key) && r.value.value == Sanitize(e.value)
  {
    var c := Entry(CollapseWs(e.key), Sanitize(e.value));
    if Acceptable(c) then Some(c) else None
  }

  function CleanedFn(): (f: Entry -> Option<Entry>)
    ensures forall e :: f(e) == Cleaned(e)
  {
    e => Cleaned(e)
  }

  /** The page as the selectors see it. */
  datatype PageText = PageText(
    blocks: seq<Scrape.SpecBlock>,   // each table / dl: rows of cells, then dt/dd pairs
    features: seq<Entry>,            // each product-feature block: name, value
    sections: seq<string>,           // the texts of the four description selectors, in order
    paragraphs: seq<string>)         // the text of every p

  /** Every raw pair `add` is called with, in order. */
  function SpecCandidates(page: PageText): seq<Entry> {
    Scrape.BlockPairs(page.blocks) + page.features
  }

  /** `extractSpecs($)`: the kept pairs assigned in order. */
  function SpecsOf(page: PageText): Specs {
    LastWins(FilterMap(SpecCandidates(page), CleanedFn()))
  }

  /** What `add(k, v)` does to the object being built. */
  function AddPair(specs: Specs, e: Entry): Specs {
    match Cleaned(e)
    case Some(c) => Put(specs, c.key, c.value)
    case None => specs
  }

  /** `add(k, v)`. */
  method Add(specs: Specs, e: Entry) returns (specs': Specs)
    ensures specs' == AddPair(specs, e)
  {
    var key := CollapseWs(e.key);
    var val := SanitizeValue(e.value);
    if key == [] || val == [] {
      return specs;
    }
    if |key| > 80 || |val| > 500 {
      return specs;
    }
    if IsMenuKey(key) {
      return specs;
    }
    specs' := Put(specs, key, val);
  }

  /** One more candidate: the object for the longer prefix is `add` applied to the object for the shorter one. */
  lemma AddStep(cands: seq<Entry>, i: nat)
    requires i < |cands|
    ensures LastWins(FilterMap(cands[..i + 1], CleanedFn())) == AddPair(LastWins(FilterMap(cands[..i], CleanedFn())), cands[i])
  {
    var f := CleanedFn();
    assert cands[..i + 1][..i] == cands[..i];
    var kept := FilterMap(cands[..i], f);
    if Cleaned(cands[i]).Some? {
      assert FilterMap(cands[..i + 1], f) == kept + [Cleaned(cands[i]).value];
      assert (kept + [Cleaned(cands[i]).value])[..|kept|] == kept;
    } else {
      assert FilterMap(cands[..i + 1], f) == kept;
    }
  }

  method ExtractSpecs(page: PageText) returns (specs: Specs)
    ensures specs == SpecsOf(page)
  {
    var cands := SpecCandidates(page);
    specs := [];
    for i := 0 to |cands|
      invariant specs == LastWins(FilterMap(cands[..i], CleanedFn()))
    {
      AddStep(cands, i);
      specs := Add(specs, cands[i]);
    }
    assert cands[..|cands|] == cands;
  }

  /**
   * `extractSpecs` lets later rows overwrite earlier ones: keys are distinct
   * and a key holds the value of the LAST kept pair with that key.
   */
  lemma ExtractSpecsLastWins(page: PageText, k: string)
    ensures UniqueKeys(SpecsOf(page))
    ensures Get(SpecsOf(page), k) == LastValue(FilterMap(SpecCandidates(page), CleanedFn()), k)
  {
    LastWinsGet(FilterMap(SpecCandidates(page), CleanedFn()), k);
  }

  /**
   * Every entry `extractSpecs` returns is acceptable (non-empty key of at
   * most 80 characters and no menu label, non-empty value of at most 500)
   * and is the cleaned form of some candidate pair.
   */
  lemma ExtractSpecsFrom(page: PageText, e: Entry)
    requires e in SpecsOf(page)
    ensures Acceptable(e)
    ensures exists i :: 0 <= i < |SpecCandidates(page)| && Cleaned(SpecCandidates(page)[i]) == Some(e)
  {
    var cands := SpecCandidates(page);
    var f := CleanedFn();
    KeptFrom(cands, f, e);
    var i :| 0 <= i < |cands| && f(cands[i]) == Some(e);
    CleanedAcceptable(cands[i]);
  }

  /** An entry of the last-wins object of the kept pairs is the image of some candidate. */
  lemma KeptFrom(cands: seq<Entry>, f: Entry -> Option<Entry>, e: Entry)
    requires e in LastWins(FilterMap(cands, f))
    ensures exists i :: 0 <= i < |cands| && f(cands[i]) == Some(e)
  {
    LastWinsFrom(FilterMap(cands, f), e);
    FilterMapMembers(cands, f, e);
  }

  lemma CleanedAcceptable(e: Entry)
    requires Cleaned(e).Some?
    ensures Acceptable(Cleaned(e).value)
  {
  }

  // ---------------------------------------------------------------------------
  // splitSentences and extractDescription

  /** `splitSentences(text, max)`. */
  function SplitSentencesMax(text: string, max: nat): string {
    SentenceCap(CollapseWs(text), max)
  }

  /**
   * At most `max` sentences, taken from the start of the collapsed text, and
   * splitting the result again changes nothing.
   */
  lemma SplitSentencesSpec(text: string, max: nat)
    ensures var r := SplitSentencesMax(text, max);
      Collapsed(r) && StartsWith(CollapseWs(text), r)
      && |NonEmpty(SplitSentences(r))| <= max
      && SplitSentencesMax(r, max) == r
  {
    CollapseWsCollapsed(text);
    CapOfCollapsed(CollapseWs(text), max);
    CollapseWsOfCollapsed(SplitSentencesMax(text, max));
  }

  function Sanitized(xs: seq<string>): (r: seq<string>)
    ensures |r| == |xs| && forall i :: 0 <= i < |xs| ==> r[i] == Sanitize(xs[i])
  {
    seq(|xs|, i requires 0 <= i < |xs| => Sanitize(xs[i]))
  }

  /** The description text chosen before the sentence cap: the longest section, else the longest paragraph. */
  function ChosenDescription(page: PageText): string {
    var d := ComplexBar.Longest(Sanitized(page.sections), "");
    if d != [] then d else ComplexBar.Longest(Sanitized(page.paragraphs), "")
  }

  /** `extractDescription($)`. */
  function DescriptionOf(page: PageText): string {
    SplitSentencesMax(ChosenDescription(page), 8)
  }

  /** `for (t of texts) if (t.length > desc.length) desc = t`, each text cleaned first. */
  method LongestCleaned(texts: seq<string>) returns (desc: string)
    ensures desc == ComplexBar.Longest(Sanitized(texts), "")
  {
    var xs := Sanitized(texts);
    desc := "";
    for i := 0 to |texts|
      invariant ComplexBar.Longest(xs[i..], desc) == ComplexBar.Longest(xs, "")
    {
      var t := SanitizeValue(texts[i]);
      assert xs[i..][1..] == xs[i + 1..];
      if |t| > |desc| {
        desc := t;
      }
    }
  }

  method ExtractDescription(page: PageText) returns (desc: string)
    ensures desc == DescriptionOf(page)
  {
    desc := LongestCleaned(page.sections);
    if desc == [] {
      desc := LongestCleaned(page.paragraphs);
    }
    desc := SentenceCap(CollapseWs(desc), 8);
  }

  /**
   * `extractDescription`: at most 8 sentences taken from the start of the
   * chosen text; no section text is longer than the chosen one, and when
   * every section is empty no paragraph is longer either.
   */
  lemma DescriptionSpec(page: PageText)
    ensures var c := ChosenDescription(page);
      var r := DescriptionOf(page);
      Collapsed(r) && StartsWith(c, r) && |NonEmpty(SplitSentences(r))| <= 8
      && (forall x :: x in Sanitized(page.sections) ==> |x| <= |c|)
      && (ComplexBar.Longest(Sanitized(page.sections), "") == [] ==>
            forall x :: x in Sanitized(page.paragraphs) ==> |x| <= |c|)
  {
    var c := ChosenDescription(page);
    ComplexBar.LongestSpec(Sanitized(page.sections), "");
    ComplexBar.LongestSpec(Sanitized(page.paragraphs), "");
    SplitSentencesSpec(c, 8);
    ChosenCollapsed(page);
    CollapseWsOfCollapsed(c);
  }

  /** The chosen text is a cleaned text (or empty), hence collapsed. */
  lemma ChosenCollapsed(page: PageText)
    ensures Collapsed(ChosenDescription(page))
  {
    var a := Sanitized(page.sections);
    var b := Sanitized(page.paragraphs);
    ComplexBar.LongestSpec(a, "");
    ComplexBar.LongestSpec(b, "");
    var c := ChosenDescription(page);
    if c != [] {
      if c in a {
        var i :| 0 <= i < |a| && a[i] == c;
        SanitizeSpec(page.sections[i]);
      } else {
        var i :| 0 <= i < |b| && b[i] == c;
        SanitizeSpec(page.paragraphs[i]);
      }
    }
  }

  // ---------------------------------------------------------------------------
  // enrichOne

  /** `p.brand`: a string, an object with a `name`, or missing. */
  datatype BrandField = BrandText(text: string) | BrandRecord(name: string) | NoBrand

  /**
   * A catalog record as far as the pass reads or writes it; an empty
   * `description` or `sourceUrl` stands for a missing (falsy) one.
   */
  datatype Product = Product(slug: string, title: string, brand: BrandField,
                             description: string, specs: Option<Specs>, sourceUrl: string)

  /** What the page of a search hit yields: its specs and its description. */
  datatype Hit = Hit(specs: Specs, description: string)

  /** `{ out, updated, reason }`. */
  datatype Outcome = Outcome(out: Product, updated: bool, reason: Option<string>)

  /**
   * The outside world: the page fetch (an error message on failure),
   * whether a search key is configured, and one search query (nothing when
   * the request fails, has no hit, or its page cannot be read).
   */
  datatype Env = Env(fetch: string -> Result<PageText, string>, searchEnabled: bool,
                     search: string -> Option<Hit>)

  function BrandName(b: BrandField): string {
    match b
    case BrandText(t) => t
    case BrandRecord(n) => n
    case NoBrand => []
  }

  /** `Object.keys(specs).length`, 0 for missing specs. */
  function SpecCount(s: Option<Specs>): nat {
    if s.Some? then |s.value| else 0
  }

  /** The merge of the refetched page into the copy `out`, with the `updated` flag it sets. */
  function FirstPass(p: Product, newSpecs: Specs, newDesc: string): (Product, bool) {
    var o1 := if |newSpecs| >= 2 then p.(specs := Some(newSpecs)) else p;
    var takeDesc := newDesc != [] && |newDesc| > 20;
    (if takeDesc then o1.(description := newDesc) else o1, |newSpecs| >= 2 || takeDesc)
  }

  /**
   * The first pass replaces the specs exactly when the fresh set has at least
   * two keys and the description exactly when the fresh one is longer than 20
   * characters; it touches nothing else, and without `updated` nothing changed.
   */
  lemma FirstPassSpec(p: Product, newSpecs: Specs, newDesc: string)
    ensures var (o, updated) := FirstPass(p, newSpecs, newDesc);
      o == p.(specs := o.specs, description := o.description)
      && (|newSpecs| >= 2 ==> o.specs == Some(newSpecs))
      && (o.specs != p.specs ==> |newSpecs| >= 2 && o.specs == Some(newSpecs))
      && (|newDesc| > 20 ==> o.description == newDesc)
      && (o.description != p.description ==> |newDesc| > 20 && o.description == newDesc)
      && (!updated ==> o == p)
  {
  }

  /** The first key mentioning `артикул` in any case, `|s|` when there is none. */
  function ArticleIndex(s: Specs): (i: nat)
    ensures i <= |s|
    ensures i < |s| ==> Contains(Lower(s[i].key), "артикул")
    ensures forall j :: 0 <= j < i ==> !Contains(Lower(s[j].key), "артикул")
  {
    if s == [] then 0
    else if Contains(Lower(s[0].key), "артикул") then 0
    else 1 + ArticleIndex(s[1..])
  }

  /** The article number: the value of that key, or ''. */
  function Article(specs: Option<Specs>): string {
    var s := if specs.Some? then specs.value else [];
    var i := ArticleIndex(s);
    if i < |s| then s[i].value else []
  }

  /** `needMore`: a short or missing description, or fewer than three spec keys. */
  predicate NeedMore(o: Product) {
    o.description == [] || |o.description| < 60 || o.specs.None? || |o.specs.value| < 3
  }

  /** `BRAND_DOMAINS`: the manufacturer sites searched for a lower-cased brand. */
  const BrandDomains: map<string, seq<string>> := map[
    "pasabahce" := ["pasabahce.com"],
    "luminarc" := ["luminarc.com"],
    "arcopal" := ["arcopal.com", "luminarc.com"],
    "robert gordon" := ["robertgordonaustralia.com"],
    "bormioli" := ["bormiolirocco.com"],
    "libbey" := ["libbey.com"],
    "arcoroc" := ["arcdin.com", "luminarc.com"],
    "dobrush" := ["dfz.by", "dobrush-porcelain.by"],
    "matfer" := ["matfer.com"],
    "weck" := ["weck-jars.com", "weck.de"],
    "arcuisine" := ["arcuisine.com", "luminarc.com"],
    "rak porcelain" := ["rakporcelain.com"],
    "churchill" := ["churchill1795.com"],
    "steelite" := ["steelite.com"],
    "spiegelau" := ["spiegelau.com"],
    "zwiesel" := ["zwiesel-glas.com"],
    "villeroy" := ["villeroy-boch.com"]
  ]

  /** The search words: brand, article and title, the empty ones left out, joined by spaces. */
  function SearchTerms(brand: string, article: string, title: string): string {
    Join(NonEmpty([brand, article, title]), " ")
  }

  /** The manufacturer sites of a brand, none for an unknown one. */
  function DomainsOf(brand: string): seq<string> {
    if Lower(brand) in BrandDomains then BrandDomains[Lower(brand)] else []
  }

  /** One query per manufacturer site of the brand, else the bare terms. */
  function Queries(brand: string, terms: string): (qs: seq<string>)
    ensures var ds := DomainsOf(brand);
      (ds != [] ==> |qs| == |ds| && forall i :: 0 <= i < |ds| ==> qs[i] == terms + " site:" + ds[i])
      && (ds == [] ==> qs == [terms])
  {
    var ds := DomainsOf(brand);
    if ds != [] then seq(|ds|, i requires 0 <= i < |ds| => terms + " site:" + ds[i]) else [terms]
  }

  /** The merge of one search hit: strictly more spec keys, or a non-empty longer description. */
  function MergeHit(o: Product, updated: bool, h: Hit): (Product, bool) {
    var takeSpecs := |h.specs| > SpecCount(o.specs);
    var o1 := if takeSpecs then o.(specs := Some(h.specs)) else o;
    var takeDesc := h.description != [] && (o1.description == [] || |h.description| > |o1.description|);
    (if takeDesc then o1.(description := h.description) else o1, updated || takeSpecs || takeDesc)
  }

  /** The search loop from query `qs[0]` on: a query without a hit is skipped, the loop stops once `updated`. */
  function SearchFrom(o: Product, updated: bool, qs: seq<string>, search: string -> Option<Hit>): (Product, bool)
    decreases |qs|
  {
    if qs == [] then (o, updated)
    else
      match search(qs[0])
      case None => SearchFrom(o, updated, qs[1..], search)
      case Some(h) =>
        var m := MergeHit(o, updated, h);
        if m.1 then m else SearchFrom(m.0, m.1, qs[1..], search)
  }

  /**
   * `enrichOne(p)` (the value its promise resolves to): unchanged with a
   * reason when there is no source or the fetch fails, else the page merged.
   */
  function Enriched(p: Product, env: Env): Outcome {
    if p.sourceUrl == [] then Outcome(p, false, Some("no-source"))
    else
      match env.fetch(p.sourceUrl)
      case Failure(msg) => Outcome(p, false, Some(if msg == [] then "fetch-failed" else msg))
      case Success(page) => AfterPage(p, page, env)
  }

  /**
   * The copy `out` after the first pass and, when the data stays weak and a
   * search is possible, after the search fallback.
   */
  function AfterPage(p: Product, page: PageText, env: Env): Outcome {
    var first := FirstPass(p, SpecsOf(page), DescriptionOf(page));
    var brand := BrandName(p.brand);
    var article := Article(first.0.specs);
    if NeedMore(first.0) && env.searchEnabled && (brand != [] || article != []) then
      var r := SearchFrom(first.0, first.1, Queries(brand, SearchTerms(brand, article, p.title)), env.search);
      Outcome(r.0, r.1, None)
    else Outcome(first.0, first.1, None)
  }

  method EnrichOne(p: Product, env: Env) returns (o: Outcome)
    ensures o == Enriched(p, env)
  {
    var out := p;
    if p.sourceUrl == [] {
      return Outcome(out, false, Some("no-source"));
    }
    var fetched := env.fetch(p.sourceUrl);
    if fetched.Failure? {
      return Outcome(out, false, Some(if fetched.error == [] then "fetch-failed" else fetched.error));
    }
    var newSpecs := ExtractSpecs(fetched.value);
    var newDesc := ExtractDescription(fetched.value);
    var updated := false;
    if |newSpecs| >= 2 {
      out := out.(specs := Some(newSpecs));
      updated := true;
    }
    if newDesc != [] && |newDesc| > 20 {
      out := out.(description := newDesc);
      updated := true;
    }
    var brand := BrandName(p.brand);
    var article := Article(out.specs);
    var needMore := out.description == [] || |out.description| < 60 || out.specs.None? || |out.specs.value| < 3;
    if needMore && env.searchEnabled && (brand != [] || article != []) {
      var qs := Queries(brand, SearchTerms(brand, article, p.title));
      out, updated := SearchLoop(out, updated, qs, env.search);
    }
    return Outcome(out, updated, None);
  }

  /** `for (const q of queries) { … if (updated) break }`. */
  method SearchLoop(out0: Product, updated0: bool, qs: seq<string>, search: string -> Option<Hit>)
    returns (out: Product, updated: bool)
    ensures (out, updated) == SearchFrom(out0, updated0, qs, search)
  {
    out, updated := out0, updated0;
    var i := 0;
    while i < |qs|
      invariant 0 <= i <= |qs|
      invariant SearchFrom(out, updated, qs[i..], search) == SearchFrom(out0, updated0, qs, search)
    {
      assert qs[i..][1..] == qs[i + 1..];
      var hit := search(qs[i]);
      if hit.Some? {
        var h := hit.value;
        if |h.specs| > SpecCount(out.specs) {
          out := out.(specs := Some(h.specs));
          updated := true;
        }
        if h.description != [] && (out.description == [] || |h.description| > |out.description|) {
          out := out.(description := h.description);
          updated := true;
        }
        if updated {
          return;
        }
      }
      i := i + 1;
    }
  }

  /**
   * The search fallback never loses data: `updated` stays set; without it
   * nothing changed; the specs change only to a hit's set with strictly more
   * keys and the description only to a hit's strictly longer one; every
   * other field is kept.
   */
  lemma {:induction false} SearchSpec(o: Product, updated: bool, qs: seq<string>, search: string -> Option<Hit>)
    ensures var (r, u) := SearchFrom(o, updated, qs, search);
      (updated ==> u) && (!u ==> r == o)
      && r == o.(specs := r.specs, description := r.description)
      && SpecCount(o.specs) <= SpecCount(r.specs) && |o.description| <= |r.description|
      && (r.specs != o.specs ==>
            (SpecCount(o.specs) < SpecCount(r.specs)
             && exists i :: 0 <= i < |qs| && search(qs[i]).Some? && r.specs == Some(search(qs[i]).value.specs)))
      && (r.description != o.description ==>
            (|o.description| < |r.description|
             && exists i :: 0 <= i < |qs| && search(qs[i]).Some? && r.description == search(qs[i]).value.description))
    decreases |qs|
  {
    if qs != [] {
      SearchSpec(o, updated, qs[1..], search);
      if search(qs[0]).Some? {
        var m := MergeHit(o, updated, search(qs[0]).value);
        SearchSpec(m.0, m.1, qs[1..], search);
      }
    }
  }

  /**
   * `enrichOne`: a record without a source comes back unchanged with reason
   * `no-source`, one whose fetch fails unchanged with the error message (or
   * `fetch-failed`), and only these two carry a reason.
   */
  lemma EnrichFailSpec(p: Product, env: Env)
    ensures var o := Enriched(p, env);
      (p.sourceUrl == [] ==> o == Outcome(p, false, Some("no-source")))
      && (p.sourceUrl != [] && env.fetch(p.sourceUrl).Failure? ==>
            var msg := env.fetch(p.sourceUrl).error;
            o == Outcome(p, false, Some(if msg == [] then "fetch-failed" else msg)))
      && (o.reason.Some? <==> p.sourceUrl == [] || env.fetch(p.sourceUrl).Failure?)
  {
  }

  /**
   * Merging a fetched page: a record not flagged `updated` is unchanged; only
   * the specs and the description change, the specs only to the fresh set of
   * at least two keys or to a hit's set larger than the first pass left, the
   * description only to the fresh one of more than 20 characters or to a
   * hit's longer one; a record whose data is not weak after the first pass is
   * not searched for.
   */
  lemma AfterPageSpec(p: Product, page: PageText, env: Env)
    ensures var o := AfterPage(p, page, env);
      var first := FirstPass(p, SpecsOf(page), DescriptionOf(page)).0;
      (!o.updated ==> o.out == p)
      && o.out == p.(specs := o.out.specs, description := o.out.description)
      && (o.out.specs != p.specs ==>
            (o.out.specs == Some(SpecsOf(page)) && |SpecsOf(page)| >= 2)
            || SpecCount(first.specs) < SpecCount(o.out.specs))
      && (o.out.description != p.description ==>
            (o.out.description == DescriptionOf(page) && |DescriptionOf(page)| > 20)
            || |first.description| < |o.out.description|)
      && (!NeedMore(first) ==> o.out == first)
  {
    var first := FirstPass(p, SpecsOf(page), DescriptionOf(page));
    FirstPassSpec(p, SpecsOf(page), DescriptionOf(page));
    var brand := BrandName(p.brand);
    var article := Article(first.0.specs);
    SearchSpec(first.0, first.1, Queries(brand, SearchTerms(brand, article, p.title)), env.search);
  }

  /** Whatever happens, a record not flagged `updated` comes back unchanged, and only specs and description ever change. */
  lemma EnrichKeeps(p: Product, env: Env)
    ensures var o := Enriched(p, env);
      (!o.updated ==> o.out == p) && o.out == p.(specs := o.out.specs, description := o.out.description)
  {
    if p.sourceUrl != [] && env.fetch(p.sourceUrl).Success? {
      AfterPageSpec(p, env.fetch(p.sourceUrl).value, env);
    }
  }

  // ---------------------------------------------------------------------------
  // main

  /** The run-log line of a record skipped with a reason. */
  function SkipLine(p: Product, o: Outcome): seq<string> {
    if !o.updated && o.reason.Some? then ["[skip] " + p.slug + " " + o.reason.value] else []
  }

  function UpdatedCount(arr: seq<Product>, env: Env): nat
    decreases |arr|
  {
    if arr == [] then 0
    else UpdatedCount(arr[..|arr| - 1], env) + (if Enriched(arr[|arr| - 1], env).updated then 1 else 0)
  }

  function SkipLog(arr: seq<Product>, env: Env): seq<string>
    decreases |arr|
  {
    if arr == [] then []
    else SkipLog(arr[..|arr| - 1], env) + SkipLine(arr[|arr| - 1], Enriched(arr[|arr| - 1], env))
  }

  /** A record is counted as updated or logged as skipped, never both. */
  lemma {:induction false} CountsBound(arr: seq<Product>, env: Env)
    ensures UpdatedCount(arr, env) + |SkipLog(arr, env)| <= |arr|
    decreases |arr|
  {
    if arr != [] {
      CountsBound(arr[..|arr| - 1], env);
    }
  }

  /** The state of `main` after the first `n` records. */
  predicate MainState(arr: seq<Product>, env: Env, n: nat, results: seq<Product>, updatedCount: nat, total: nat, log: seq<string>)
    requires n <= |arr|
  {
    |results| == n && (forall i :: 0 <= i < n ==> results[i] == Enriched(arr[i], env).out)
    && total == n && updatedCount == UpdatedCount(arr[..n], env) && log == SkipLog(arr[..n], env)
  }

  /** One more record handled by the body of the `main` loop. */
  lemma MainStep(arr: seq<Product>, env: Env, n: nat, results: seq<Product>, updatedCount: nat, total: nat, log: seq<string>, o: Outcome)
    requires n < |arr| && MainState(arr, env, n, results, updatedCount, total, log) && o == Enriched(arr[n], env)
    ensures MainState(arr, env, n + 1, results + [o.out], updatedCount + (if o.updated then 1 else 0), total + 1, log + SkipLine(arr[n], o))
  {
    assert arr[..n + 1][..n] == arr[..n];
  }

  /**
   * The body of `main` without the clock: every record enriched in order, the
   * number updated, the number seen, and the skip lines of the run log.
   */
  method EnrichAll(arr: seq<Product>, env: Env) returns (results: seq<Product>, updatedCount: nat, total: nat, log: seq<string>)
    ensures |results| == |arr| && forall i :: 0 <= i < |arr| ==> results[i] == Enriched(arr[i], env).out
    ensures total == |arr| && updatedCount == UpdatedCount(arr, env) && log == SkipLog(arr, env)
    ensures updatedCount + |log| <= total
  {
    results, updatedCount, total, log := [], 0, 0, [];
    for idx := 0 to |arr|
      invariant MainState(arr, env, idx, results, updatedCount, total, log)
    {
      var o := EnrichOne(arr[idx], env);
      MainStep(arr, env, idx, results, updatedCount, total, log, o);
      total := total + 1;
      if o.updated {
        updatedCount := updatedCount + 1;
      }
      if !o.updated && o.reason.Some? {
        log := log + ["[skip] " + arr[idx].slug + " " + o.reason.value];
      }
      results := results + [o.out];
    }
    assert arr[..|arr|] == arr;
    CountsBound(arr, env);
  }

  /** `main`: enrich every record, then save the catalog by rename (retried) or direct write. */
  method Run(arr: seq<Product>, env: Env, renameOk: nat -> bool)
    returns (results: seq<Product>, updatedCount: nat, total: nat, log: seq<string>, how: Retry.SaveOutcome)
    ensures |results| == |arr| && forall i :: 0 <= i < |arr| ==> results[i] == Enriched(arr[i], env).out
    ensures total == |arr| && updatedCount == UpdatedCount(arr, env) && log == SkipLog(arr, env)
    ensures how.Renamed? <==> exists k :: 0 <= k < 20 && renameOk(k)
  {
    results, updatedCount, total, log := EnrichAll(arr, env);
    var sleeps;
    how, sleeps := Retry.SaveRenameOrWrite(renameOk);
  }
}
