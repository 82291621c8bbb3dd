// scripts/fill_products.mjs as the repository stores it: its UTF-8 text was
// read back as Mac OS Roman and saved, so every Cyrillic literal of the file
// is the `MacRoman.Encode` of the word the script means. The rest of the
// model (module Fill) uses the decoded words; this module states what the
// stored literals do instead.

module FillAsWritten {
  import opened Text
  import opened SpecMap
  import opened MacRoman
  import Fill

  // ---------------------------------------------------------------------------
  // The character class of `safeSlug` (line 45)

  /** A range `lo-hi` of a character class. */
  datatype Span = Span(lo: char, hi: char)

  /** The length of the atom at `i`: two for an escape, otherwise one. */
  function AtomLen(s: string, i: nat): nat
    requires i < |s|
  {
    if s[i] == '\\' && i + 1 < |s| then 2 else 1
  }

  /** Whether the atom at `i` stands for one character: anything but `\d`, `\s`, `\w` and their negations. */
  predicate CharAtom(s: string, i: nat)
    requires i < |s|
  {
    AtomLen(s, i) == 1 || s[i + 1] !in "dDsSwW"
  }

  /** The character of such an atom; an identity escape such as `\-` stands for its second character. */
  function AtomChar(s: string, i: nat): char
    requires i < |s|
  {
    if AtomLen(s, i) == 1 then s[i] else s[i + 1]
  }

  /**
   * The ranges `x-y` of a class body (the text between `[^` and `]`) from
   * position `i` on. A range with a class escape at one end is the union of
   * its parts in a pattern without the `u` flag, so it is no range.
   */
  function RangesFrom(s: string, i: nat): seq<Span>
    decreases |s| - i
  {
    if i >= |s| then []
    else
      var j := i + AtomLen(s, i);
      if j + 1 < |s| && s[j] == '-' then
        var here := if CharAtom(s, i) && CharAtom(s, j + 1) then [Span(AtomChar(s, i), AtomChar(s, j + 1))] else [];
        here + RangesFrom(s, j + 1 + AtomLen(s, j + 1))
      else RangesFrom(s, j)
  }

  function Ranges(s: string): seq<Span> { RangesFrom(s, 0) }

  /** A class whose range runs backwards: an early error, so the script holding it does not load. */
  predicate OutOfOrder(s: string) {
    exists k :: 0 <= k < |Ranges(s)| && Ranges(s)[k].lo > Ranges(s)[k].hi
  }

  /** The class body of line 45 as the file holds it. */
  const StoredSlugClass := "a-z0-9–∞-—è—ë\\-\\s_"

  /** The class body as meant: Latin and Cyrillic letters, digits, `-`, white space and `_`. */
  const SlugClass := "a-z0-9а-яё\\-\\s_"

  /** A plain range `x-y` at position `i`. */
  lemma RangeAt(s: string, i: nat)
    requires i + 2 < |s| && s[i] != '\\' && s[i + 1] == '-' && s[i + 2] != '\\'
    ensures RangesFrom(s, i) == [Span(s[i], s[i + 2])] + RangesFrom(s, i + 3)
  {
  }

  /** A lone character at position `i`, not followed by `-`. */
  lemma SingleAt(s: string, i: nat)
    requires i + 1 < |s| && s[i] != '\\' && s[i + 1] != '-'
    ensures RangesFrom(s, i) == RangesFrom(s, i + 1)
  {
  }

  /** An escape at position `i`, not followed by `-`. */
  lemma EscapeAt(s: string, i: nat)
    requires i + 2 < |s| && s[i] == '\\' && s[i + 2] != '-'
    ensures RangesFrom(s, i) == RangesFrom(s, i + 2)
  {
  }

  /** The shape of the stored class: two ranges, a lone character and a third range. */
  lemma StoredShape(s: string)
    requires |s| > 10 && s[0] != '\\' && s[1] == '-' && s[2] != '\\' && s[3] != '\\' && s[4] == '-'
    requires s[5] != '\\' && s[6] != '\\' && s[7] != '-' && s[7] != '\\' && s[8] == '-' && s[9] != '\\'
    ensures |Ranges(s)| >= 3 && Ranges(s)[2] == Span(s[7], s[9])
  {
    RangeAt(s, 0);
    RangeAt(s, 3);
    SingleAt(s, 6);
    RangeAt(s, 7);
  }

  /** The shape of the intended class: three ranges, a lone character, `\-`, `\s` and a last character. */
  lemma IntendedShape(s: string)
    requires |s| == 15 && s[0] != '\\' && s[1] == '-' && s[2] != '\\' && s[3] != '\\' && s[4] == '-'
    requires s[5] != '\\' && s[6] != '\\' && s[7] == '-' && s[8] != '\\' && s[9] != '\\'
    requires s[10] == '\\' && s[12] == '\\' && s[14] != '-' && s[14] != '\\'
    ensures Ranges(s) == [Span(s[0], s[2]), Span(s[3], s[5]), Span(s[6], s[8])]
  {
    RangeAt(s, 0);
    RangeAt(s, 3);
    RangeAt(s, 6);
    SingleAt(s, 9);
    EscapeAt(s, 10);
    assert RangesFrom(s, 12) == RangesFrom(s, 14);
    assert RangesFrom(s, 14) == [];
  }

  /** As stored, the third range of the class is `∞-—`, U+221E down to U+2014. */
  lemma StoredSlugClassRejected()
    ensures |Ranges(StoredSlugClass)| >= 3 && Ranges(StoredSlugClass)[2] == Span('∞', '—')
    ensures OutOfOrder(StoredSlugClass)
  {
    StoredShape(StoredSlugClass);
  }

  /** Decoded, the class has the ranges `a-z`, `0-9` and `а-я`, each in order. */
  lemma SlugClassAccepted()
    ensures Ranges(SlugClass) == [Span('a', 'z'), Span('0', '9'), Span('а', 'я')]
    ensures !OutOfOrder(SlugClass)
  {
    IntendedShape(SlugClass);
  }

  /** Reading the intended class: ASCII around `x-yz` at positions 6 to 9. */
  lemma EncodeSlugShape(s: string)
    requires |s| == 15 && s[7] < '\U{0080}'
    requires forall i :: 0 <= i < 6 ==> s[i] < '\U{0080}'
    requires forall i :: 10 <= i < 15 ==> s[i] < '\U{0080}'
    ensures Encode(s) == s[..6] + (EncodeChar(s[6]) + ([s[7]] + (EncodeChar(s[8]) + (EncodeChar(s[9]) + s[10..]))))
  {
    var a, b := s[..6], s[10..];
    assert s == a + s[6..];
    EncodeAppend(a, s[6..]);
    EncodeAscii(a);
    EncodeAscii(b);
    EncodeCons(s[6..]);
    assert s[6..][1..] == s[7..];
    EncodeCons(s[7..]);
    assert s[7..][1..] == s[8..];
    EncodeCons(s[8..]);
    assert s[8..][1..] == s[9..];
    EncodeCons(s[9..]);
    assert s[9..][1..] == b;
  }

  /** The stored class is the Mac OS Roman reading of the intended one. */
  lemma SlugClassStored()
    ensures Encode(SlugClass) == StoredSlugClass
  {
    EncodeSlugClass(SlugClass);
  }

  /** The character-by-character form of the class, so that the proof does not compute on the literal. */
  lemma EncodeSlugClass(s: string)
    requires |s| == 15 && s[0] == 'a' && s[1] == '-' && s[2] == 'z' && s[3] == '0' && s[4] == '-' && s[5] == '9'
    requires s[6] == 'а' && s[7] == '-' && s[8] == 'я' && s[9] == 'ё'
    requires s[10] == '\\' && s[11] == '-' && s[12] == '\\' && s[13] == 's' && s[14] == '_'
    ensures Encode(s) == StoredSlugClass
  {
    EncodeSlugShape(s);
    assert s[..6] == "a-z0-9";
    assert s[10..] == "\\-\\s_";
    StoredAssembly(s[..6] + (EncodeChar(s[6]) + ([s[7]] + (EncodeChar(s[8]) + (EncodeChar(s[9]) + s[10..])))));
  }

  lemma StoredAssembly(x: string)
    requires x == "a-z0-9" + (EncodeChar('а') + (['-'] + (EncodeChar('я') + (EncodeChar('ё') + "\\-\\s_"))))
    ensures x == StoredSlugClass
  {
  }

  // ---------------------------------------------------------------------------
  // The keywords of `defaultsForCategory` (lines 192-212)

  /**
   * `/p/i.test(s)` for a pattern of literal characters: both sides are
   * compared upper-cased, as a pattern without the `u` flag compares them.
   */
  predicate TestsIgnoringCase(s: string, p: string) { Contains(Upper(s), Upper(p)) }

  predicate SaysPorcelain(s: string) {
    TestsIgnoringCase(s, Encode("фарфор")) || TestsIgnoringCase(s, "porcelain")
  }
  predicate SaysCeramic(s: string) { TestsIgnoringCase(s, Encode("керам")) || TestsIgnoringCase(s, "ceram") }
  predicate SaysGlass(s: string) { TestsIgnoringCase(s, Encode("стекло")) || TestsIgnoringCase(s, "glass") }
  predicate SaysPlastic(s: string) {
    TestsIgnoringCase(s, Encode("пластик")) || TestsIgnoringCase(s, "poly")
    || TestsIgnoringCase(s, "pp") || TestsIgnoringCase(s, "pe")
  }

  /** The material the stored `defaultsForCategory` picks for the lower-cased text `s`. */
  function CategoryMaterial(s: string): string {
    if SaysPorcelain(s) then Encode(Fill.Porcelain)
    else if SaysCeramic(s) then Encode(Fill.Ceramic)
    else if SaysGlass(s) then Encode(Fill.Glass)
    else if SaysPlastic(s) then Encode(Fill.Plastic)
    else Encode(Fill.Steel)
  }

  /** The stored `defaultsForCategory(category, name)`: stored keys and stored values. */
  function CategoryDefaults(category: string, name: string): Specs {
    var s := Lower(category + " " + name);
    [Entry(Encode(Fill.MaterialKey), CategoryMaterial(s)),
     Entry(Encode(Fill.ColourKey), if SaysGlass(s) then Encode(Fill.Transparent) else Encode(Fill.White)),
     Entry(Encode(Fill.SizeKey), Encode("Универсальный")),
     Entry(Encode(Fill.WeightKey), Encode("Уточняется"))]
  }

  predicate IsAsciiLetter(c: char) { 'a' <= c <= 'z' || 'A' <= c <= 'Z' }

  /** The stored form of a word that starts with a Cyrillic letter starts with a lead character. */
  lemma EncodeLead(w: string)
    requires w != [] && '\U{0400}' <= w[0] <= '\U{047F}'
    ensures |Encode(w)| >= 2 && IsLead(Encode(w)[0])
  {
    assert Encode(w)[..2] == EncodeChar(w[0]);
  }

  /** Upper-casing makes no lead character and no ASCII letter out of other characters. */
  lemma UpperKeepsForeign(c: char)
    requires !IsLead(c) && !IsAsciiLetter(c)
    ensures !IsLead(UpperChar(c)) && !IsAsciiLetter(UpperChar(c))
  {
  }

  /** Nor does lower-casing. */
  lemma LowerKeepsForeign(c: char)
    requires !IsLead(c) && !IsAsciiLetter(c)
    ensures !IsLead(LowerChar(c)) && !IsAsciiLetter(LowerChar(c))
  {
  }

  /** A lead character is its own upper case. */
  lemma UpperOfLead(c: char)
    requires IsLead(c)
    ensures UpperChar(c) == c
  {
  }

  /**
   * A stored Cyrillic keyword never matches text without the two lead
   * characters: whatever Cyrillic the text holds, the test fails.
   */
  lemma StoredKeywordMisses(s: string, w: string)
    requires w != [] && '\U{0400}' <= w[0] <= '\U{047F}'
    requires forall i :: 0 <= i < |s| ==> !IsLead(s[i])
    ensures !TestsIgnoringCase(s, Encode(w))
  {
    var p := Encode(w);
    EncodeLead(w);
    UpperOfLead(p[0]);
    var u := Upper(s);
    assert Upper(p)[0] == p[0];
    forall i | 0 <= i < |u| ensures u[i] != p[0] {
      if IsAsciiLetter(s[i]) {
        assert u[i] < '\U{0080}';
      } else {
        UpperKeepsForeign(s[i]);
      }
    }
    NoCharNoContains(u, Upper(p), 0);
  }

  /** A Latin keyword never matches text without ASCII letters. */
  lemma LatinKeywordMisses(s: string, w: string)
    requires w != [] && IsAsciiLetter(UpperChar(w[0]))
    requires CyrillicOnly(s)
    ensures !TestsIgnoringCase(s, w)
  {
    var u := Upper(s);
    forall i | 0 <= i < |u| ensures u[i] != Upper(w)[0] {
      UpperKeepsForeign(s[i]);
    }
    NoCharNoContains(u, Upper(w), 0);
  }

  /**
   * So a category and name written in Cyrillic alone (no ASCII letter and no
   * lead character) always get the stored steel default as written, while
   * the intended script picks porcelain for "тарелки фарфоровые" and every
   * other text that says фарфор.
   */
  lemma StoredDefaultsIgnoreCyrillic(category: string, name: string)
    requires CyrillicOnly(category + " " + name)
    ensures CategoryDefaults(category, name)[0].value == Encode(Fill.Steel)
    ensures CategoryDefaults(category, name)[1].value == Encode(Fill.White)
    ensures Fill.SaysPorcelain(Lower(category + " " + name)) ==>
      Fill.CategoryDefaults(category, name)[0].value == Fill.Porcelain
  {
    var x := category + " " + name;
    LowerCyrillicOnly(x);
    StoredKeywordsMiss(Lower(x));
    StoredMaterialSteel(category, name);
    StoredColourWhite(category, name);
    Fill.CategoryDefaultsSpec(category, name);
  }

  /** Text with neither a lead character nor an ASCII letter. */
  predicate CyrillicOnly(s: string) {
    forall i :: 0 <= i < |s| ==> !IsLead(s[i]) && !IsAsciiLetter(s[i])
  }

  /** No stored keyword, Cyrillic or Latin. */
  predicate MissesAll(s: string) {
    !SaysPorcelain(s) && !SaysCeramic(s) && !SaysGlass(s) && !SaysPlastic(s)
  }

  lemma LowerCyrillicOnly(x: string)
    requires CyrillicOnly(x)
    ensures CyrillicOnly(Lower(x))
  {
    var s := Lower(x);
    forall i | 0 <= i < |s| ensures !IsLead(s[i]) && !IsAsciiLetter(s[i]) {
      LowerKeepsForeign(x[i]);
    }
  }

  lemma StoredKeywordsMiss(s: string)
    requires CyrillicOnly(s)
    ensures MissesAll(s)
  {
    StoredPorcelainMisses(s);
    StoredCeramicMisses(s);
    StoredGlassMisses(s);
    StoredPlasticMisses(s);
  }

  lemma StoredPorcelainMisses(s: string)
    requires CyrillicOnly(s)
    ensures !SaysPorcelain(s)
  {
    StoredKeywordMisses(s, "фарфор");
    LatinKeywordMisses(s, "porcelain");
  }

  lemma StoredCeramicMisses(s: string)
    requires CyrillicOnly(s)
    ensures !SaysCeramic(s)
  {
    StoredKeywordMisses(s, "керам");
    LatinKeywordMisses(s, "ceram");
  }

  lemma StoredGlassMisses(s: string)
    requires CyrillicOnly(s)
    ensures !SaysGlass(s)
  {
    StoredKeywordMisses(s, "стекло");
    LatinKeywordMisses(s, "glass");
  }

  lemma StoredPlasticMisses(s: string)
    requires CyrillicOnly(s)
    ensures !SaysPlastic(s)
  {
    StoredKeywordMisses(s, "пластик");
    LatinKeywordMisses(s, "poly");
    LatinKeywordMisses(s, "pp");
    LatinKeywordMisses(s, "pe");
  }

  lemma StoredMaterialSteel(category: string, name: string)
    requires MissesAll(Lower(category + " " + name))
    ensures CategoryDefaults(category, name)[0].value == Encode(Fill.Steel)
  {
  }

  lemma StoredColourWhite(category: string, name: string)
    requires MissesAll(Lower(category + " " + name))
    ensures CategoryDefaults(category, name)[1].value == Encode(Fill.White)
  {
  }

  // ---------------------------------------------------------------------------
  // The stage-two defaults (lines 680-692)

  /** The stage-two dictionary as stored: the seven keys in their stored form, with any values. */
  function StoredDefaults(values: seq<string>): seq<Entry>
    requires |values| == 7
  {
    seq(7, i requires 0 <= i < 7 => Entry(Encode(Fill.SevenKeys[i]), values[i]))
  }

  /** No stored key is one of the seven real keys. */
  lemma StoredKeysDiffer(i: nat, j: nat)
    requires i < 7 && j < 7
    ensures Encode(Fill.SevenKeys[j]) != Fill.SevenKeys[i]
  {
    var k, m := Fill.SevenKeys[j], Fill.SevenKeys[i];
    assert k != [] && '\U{0400}' <= k[0] <= '\U{047F}';
    assert m != [] && !IsLead(m[0]);
    StoredWordDiffers(k, m);
  }

  /** The stored form of a Cyrillic word differs from every text that does not start with a lead character. */
  lemma StoredWordDiffers(w: string, t: string)
    requires w != [] && '\U{0400}' <= w[0] <= '\U{047F}'
    requires t != [] && !IsLead(t[0])
    ensures Encode(w) != t
  {
    EncodeLead(w);
  }

  /**
   * As stored, the stage-two merge fills none of the seven characteristics
   * the record already uses: each real key keeps the value it had, an
   * empty `Материал` stays empty, and the defaults land under new keys.
   */
  lemma StoredDefaultsMissRealKeys(specs: Specs, values: seq<string>, i: nat)
    requires |values| == 7 && i < 7
    ensures Get(Fill.Merged(specs, StoredDefaults(values)), Fill.SevenKeys[i]) == Get(specs, Fill.SevenKeys[i])
  {
    var adds := StoredDefaults(values);
    forall j | 0 <= j < |adds| ensures adds[j].key != Fill.SevenKeys[i] {
      StoredKeysDiffer(i, j);
    }
    Fill.MergeSkips(specs, adds, Fill.SevenKeys[i]);
  }
}
