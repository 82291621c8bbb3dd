// The Mac OS Roman reading of UTF-8 text, for the Cyrillic and ASCII
// characters the catalogue scripts use: each Cyrillic letter is two UTF-8
// bytes, a lead byte 0xD0 or 0xD1 and a continuation byte 0x80-0xBF, and an
// editor that takes those bytes for Mac OS Roman shows two characters.

module MacRoman {
  import opened Wrappers

  /** The Mac OS Roman character of a UTF-8 continuation byte. */
  function High(b: int): char
    requires 0x80 <= b < 0xC0
  {
    match b
    case 0x80 => 'Ä'
    case 0x81 => 'Å'
    case 0x82 => 'Ç'
    case 0x83 => 'É'
    case 0x84 => 'Ñ'
    case 0x85 => 'Ö'
    case 0x86 => 'Ü'
    case 0x87 => 'á'
    case 0x88 => 'à'
    case 0x89 => 'â'
    case 0x8A => 'ä'
    case 0x8B => 'ã'
    case 0x8C => 'å'
    case 0x8D => 'ç'
    case 0x8E => 'é'
    case 0x8F => 'è'
    case 0x90 => 'ê'
    case 0x91 => 'ë'
    case 0x92 => 'í'
    case 0x93 => 'ì'
    case 0x94 => 'î'
    case 0x95 => 'ï'
    case 0x96 => 'ñ'
    case 0x97 => 'ó'
    case 0x98 => 'ò'
    case 0x99 => 'ô'
    case 0x9A => 'ö'
    case 0x9B => 'õ'
    case 0x9C => 'ú'
    case 0x9D => 'ù'
    case 0x9E => 'û'
    case 0x9F => 'ü'
    case 0xA0 => '†'
    case 0xA1 => '°'
    case 0xA2 => '¢'
    case 0xA3 => '£'
    case 0xA4 => '§'
    case 0xA5 => '•'
    case 0xA6 => '¶'
    case 0xA7 => 'ß'
    case 0xA8 => '®'
    case 0xA9 => '©'
    case 0xAA => '™'
    case 0xAB => '´'
    case 0xAC => '¨'
    case 0xAD => '≠'
    case 0xAE => 'Æ'
    case 0xAF => 'Ø'
    case 0xB0 => '∞'
    case 0xB1 => '±'
    case 0xB2 => '≤'
    case 0xB3 => '≥'
    case 0xB4 => '¥'
    case 0xB5 => 'µ'
    case 0xB6 => '∂'
    case 0xB7 => '∑'
    case 0xB8 => '∏'
    case 0xB9 => 'π'
    case 0xBA => '∫'
    case 0xBB => 'ª'
    case 0xBC => 'º'
    case 0xBD => 'Ω'
    case 0xBE => 'æ'
    case _ => 'ø'
  }

  /** The byte a character of the continuation range stands for, if any. */
  function HighByte(c: char): (r: Option<int>)
    ensures r.Some? ==> 0x80 <= r.value < 0xC0
  {
    match c
    case 'Ä' => Some(0x80)
    case 'Å' => Some(0x81)
    case 'Ç' => Some(0x82)
    case 'É' => Some(0x83)
    case 'Ñ' => Some(0x84)
    case 'Ö' => Some(0x85)
    case 'Ü' => Some(0x86)
    case 'á' => Some(0x87)
    case 'à' => Some(0x88)
    case 'â' => Some(0x89)
    case 'ä' => Some(0x8A)
    case 'ã' => Some(0x8B)
    case 'å' => Some(0x8C)
    case 'ç' => Some(0x8D)
    case 'é' => Some(0x8E)
    case 'è' => Some(0x8F)
    case 'ê' => Some(0x90)
    case 'ë' => Some(0x91)
    case 'í' => Some(0x92)
    case 'ì' => Some(0x93)
    case 'î' => Some(0x94)
    case 'ï' => Some(0x95)
    case 'ñ' => Some(0x96)
    case 'ó' => Some(0x97)
    case 'ò' => Some(0x98)
    case 'ô' => Some(0x99)
    case 'ö' => Some(0x9A)
    case 'õ' => Some(0x9B)
    case 'ú' => Some(0x9C)
    case 'ù' => Some(0x9D)
    case 'û' => Some(0x9E)
    case 'ü' => Some(0x9F)
    case '†' => Some(0xA0)
    case '°' => Some(0xA1)
    case '¢' => Some(0xA2)
    case '£' => Some(0xA3)
    case '§' => Some(0xA4)
    case '•' => Some(0xA5)
    case '¶' => Some(0xA6)
    case 'ß' => Some(0xA7)
    case '®' => Some(0xA8)
    case '©' => Some(0xA9)
    case '™' => Some(0xAA)
    case '´' => Some(0xAB)
    case '¨' => Some(0xAC)
    case '≠' => Some(0xAD)
    case 'Æ' => Some(0xAE)
    case 'Ø' => Some(0xAF)
    case '∞' => Some(0xB0)
    case '±' => Some(0xB1)
    case '≤' => Some(0xB2)
    case '≥' => Some(0xB3)
    case '¥' => Some(0xB4)
    case 'µ' => Some(0xB5)
    case '∂' => Some(0xB6)
    case '∑' => Some(0xB7)
    case '∏' => Some(0xB8)
    case 'π' => Some(0xB9)
    case '∫' => Some(0xBA)
    case 'ª' => Some(0xBB)
    case 'º' => Some(0xBC)
    case 'Ω' => Some(0xBD)
    case 'æ' => Some(0xBE)
    case 'ø' => Some(0xBF)
    case _ => None
  }

  /** Mac OS Roman shows the lead bytes 0xD0 and 0xD1 as an en dash and an em dash. */
  const LeadD0: char := '\U{2013}'
  const LeadD1: char := '\U{2014}'

  /** The characters this reading covers: ASCII and the Cyrillic block U+0400-047F. */
  predicate Encodable(c: char) { c < '\U{0080}' || '\U{0400}' <= c <= '\U{047F}' }

  /**
   * A character as it shows once its UTF-8 bytes are read as Mac OS Roman;
   * a character outside the covered blocks is left as it is.
   */
  function EncodeChar(c: char): (r: string)
    ensures |r| == if '\U{0400}' <= c <= '\U{047F}' then 2 else 1
  {
    // U+0400-043F are 0xD0 0x80-0xBF in UTF-8, U+0440-047F are 0xD1 0x80-0xBF.
    if c < '\U{0400}' || '\U{047F}' < c then [c]
    else if c < '\U{0440}' then [LeadD0, High(c as int - 0x380)]
    else [LeadD1, High(c as int - 0x3C0)]
  }

  /** The two characters a Cyrillic letter shows as decode to that letter. */
  lemma CyrillicPair(c: char)
    requires '\U{0400}' <= c <= '\U{047F}'
    ensures var e := EncodeChar(c);
      IsLead(e[0]) && HighByte(e[1]).Some? && CyrillicOf(e[0], HighByte(e[1]).value) == c
  {
    HighRoundTrip(if c < '\U{0440}' then c as int - 0x380 else c as int - 0x3C0);
  }

  /** A lead and a continuation character that decode to a letter are that letter's reading. */
  lemma PairCyrillic(lead: char, h: char)
    requires IsLead(lead) && HighByte(h).Some?
    ensures EncodeChar(CyrillicOf(lead, HighByte(h).value)) == [lead, h]
  {
    var b := HighByte(h).value;
    HighByteRoundTrip(h);
    var c := CyrillicOf(lead, b);
    assert (c < '\U{0440}') == (lead == LeadD0);
    assert c as int - (if lead == LeadD0 then 0x380 else 0x3C0) == b;
  }

  /** A whole text read that way. */
  function Encode(s: string): (r: string)
    ensures |r| >= |s|
  {
    if s == [] then [] else EncodeChar(s[0]) + Encode(s[1..])
  }

  predicate IsLead(c: char) { c == LeadD0 || c == LeadD1 }

  /** The Cyrillic letter whose UTF-8 bytes are `lead` (0xD0 or 0xD1) and the continuation byte `b`. */
  function CyrillicOf(lead: char, b: int): (c: char)
    requires IsLead(lead) && 0x80 <= b < 0xC0
    ensures '\U{0400}' <= c <= '\U{047F}'
  {
    ((if lead == LeadD0 then 0x400 else 0x440) + b - 0x80) as char
  }

  /** One step of the reading. */
  lemma EncodeCons(s: string)
    requires s != []
    ensures Encode(s) == EncodeChar(s[0]) + Encode(s[1..])
  {
  }

  /** The reading goes character by character. */
  lemma {:induction false} EncodeAppend(a: string, b: string)
    ensures Encode(a + b) == Encode(a) + Encode(b)
  {
    if a != [] {
      assert (a + b)[1..] == a[1..] + b;
      EncodeAppend(a[1..], b);
    } else {
      assert a + b == b;
    }
  }

  /** ASCII text reads the same in both encodings. */
  lemma {:induction false} EncodeAscii(s: string)
    requires forall i :: 0 <= i < |s| ==> s[i] < '\U{0080}'
    ensures Encode(s) == s
  {
    if s != [] {
      EncodeAscii(s[1..]);
      assert s == [s[0]] + s[1..];
    }
  }

  /** The text such a reading came from, when there is one. */
  function Decode(t: string): Option<string>
    decreases |t|
  {
    if t == [] then Some([])
    else if t[0] < '\U{0080}' then
      match Decode(t[1..])
      case Some(rest) => Some([t[0]] + rest)
      case None => None
    else if IsLead(t[0]) && |t| >= 2 && HighByte(t[1]).Some? then
      match Decode(t[2..])
      case Some(rest) => Some([CyrillicOf(t[0], HighByte(t[1]).value)] + rest)
      case None => None
    else None
  }

  lemma HighRoundTrip(b: int)
    requires 0x80 <= b < 0xC0
    ensures HighByte(High(b)) == Some(b)
  {
  }

  lemma HighByteRoundTrip(c: char)
    requires HighByte(c).Some?
    ensures High(HighByte(c).value) == c
  {
  }

  /** Reading the bytes back as UTF-8 gives the text again. */
  lemma {:induction false} DecodeEncode(s: string)
    requires forall i :: 0 <= i < |s| ==> Encodable(s[i])
    ensures Decode(Encode(s)) == Some(s)
  {
    if s != [] {
      var c := s[0];
      var t := Encode(s);
      DecodeEncode(s[1..]);
      assert s == [c] + s[1..];
      if c < '\U{0080}' {
        assert t[0] == c && t[1..] == Encode(s[1..]);
      } else {
        CyrillicPair(c);
        var e := EncodeChar(c);
        assert t[0] == e[0] && t[1] == e[1] && t[2..] == Encode(s[1..]);
      }
    }
  }

  /** And a text that decodes is the reading of what it decodes to, so the reading loses nothing. */
  lemma {:induction false} EncodeDecode(t: string)
    requires Decode(t).Some?
    ensures var s := Decode(t).value;
      (forall i :: 0 <= i < |s| ==> Encodable(s[i])) && Encode(s) == t
    decreases |t|
  {
    if t != [] {
      if t[0] < '\U{0080}' {
        EncodeDecode(t[1..]);
        assert t == [t[0]] + t[1..];
      } else {
        PairCyrillic(t[0], t[1]);
        EncodeDecode(t[2..]);
        assert t == [t[0], t[1]] + t[2..];
      }
    }
  }
}
