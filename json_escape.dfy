/**
 * How the JSON serializer writes one code point of a string
 * (org.basex.io.serial.json.JsonSerializer, `print` and `fallback`).
 *
 * With escaping on, the characters that section 7 of RFC 8259 gives a
 * two-character escape are written that way; every other code point goes to
 * the encoding-aware print of the output, which writes it as itself when the
 * output encoding can hold it and otherwise calls the fallback. The fallback
 * writes `\uXXXX`, and for a supplementary code point two such escapes, one
 * per UTF-16 surrogate (section 2.1 of RFC 2781).
 *
 * A string is a sequence of code points (`char` is a Unicode scalar value).
 * Whether the output encoding can hold a code point is the parameter
 * `encodable`. A decoder of JSON string bodies is the partner that every
 * escape is proved against.
 */
module JsonEscape {
  import opened Wrappers

  /** Digits written by the hexadecimal conversion, most significant first. */
  const HexDigits: string := "0123456789ABCDEF"

  /** The `len` lowest hexadecimal digits of `n`, most significant first. */
  function Hex(n: nat, len: nat): (r: string)
    ensures |r| == len
  {
    if len == 0 then "" else Hex(n / 16, len - 1) + [HexDigits[n % 16]]
  }

  /** The value of one hexadecimal digit, either case. */
  function HexValue(c: char): (r: Option<int>)
    ensures r.Some? ==> 0 <= r.value < 16
  {
    if '0' <= c <= '9' then Some(c as int - '0' as int)
    else if 'A' <= c <= 'F' then Some(c as int - 'A' as int + 10)
    else if 'a' <= c <= 'f' then Some(c as int - 'a' as int + 10)
    else None
  }

  /** The value of four hexadecimal digits. */
  function ParseHex4(s: string): (r: Option<int>)
    requires |s| == 4
    ensures r.Some? ==> 0 <= r.value < 0x1_0000
  {
    match (HexValue(s[0]), HexValue(s[1]), HexValue(s[2]), HexValue(s[3]))
    case (Some(a), Some(b), Some(c), Some(d)) => Some(a * 0x1000 + b * 0x100 + c * 0x10 + d)
    case _ => None
  }

  /** Each digit written by Hex reads back as its own position value. */
  lemma HexDigitValue(d: int)
    requires 0 <= d < 16
    ensures HexValue(HexDigits[d]) == Some(d)
  {
  }

  /** The four digits of a 16-bit value, each one unfolded. */
  lemma Hex4Unfold(n: nat)
    ensures Hex(n, 4) == [HexDigits[n / 16 / 16 / 16 % 16], HexDigits[n / 16 / 16 % 16],
                          HexDigits[n / 16 % 16], HexDigits[n % 16]]
  {
    assert Hex(n / 16 / 16 / 16, 1) == Hex(n / 16 / 16 / 16 / 16, 0) + [HexDigits[n / 16 / 16 / 16 % 16]];
    assert Hex(n / 16 / 16, 2) == Hex(n / 16 / 16 / 16, 1) + [HexDigits[n / 16 / 16 % 16]];
    assert Hex(n / 16, 3) == Hex(n / 16 / 16, 2) + [HexDigits[n / 16 % 16]];
    assert Hex(n, 4) == Hex(n / 16, 3) + [HexDigits[n % 16]];
  }

  /** Four written digits read back as the value they stand for. */
  lemma ParseDigits(a: int, b: int, c: int, d: int)
    requires 0 <= a < 16 && 0 <= b < 16 && 0 <= c < 16 && 0 <= d < 16
    ensures ParseHex4([HexDigits[a], HexDigits[b], HexDigits[c], HexDigits[d]])
         == Some(a * 0x1000 + b * 0x100 + c * 0x10 + d)
  {
    HexDigitValue(a);
    HexDigitValue(b);
    HexDigitValue(c);
    HexDigitValue(d);
  }

  /** Four hexadecimal digits read back as the value they were written from. */
  lemma Hex4RoundTrip(n: nat)
    requires n < 0x1_0000
    ensures ParseHex4(Hex(n, 4)) == Some(n)
  {
    var a, b, c, d := n / 16 / 16 / 16 % 16, n / 16 / 16 % 16, n / 16 % 16, n % 16;
    Hex4Unfold(n);
    ParseDigits(a, b, c, d);
    Hex4Sum(n);
    assert a * 0x1000 + b * 0x100 + c * 0x10 + d == n;
  }

  /** The four digits of a 16-bit value add up to it again. */
  lemma Hex4Sum(n: nat)
    requires n < 0x1_0000
    ensures n == n / 16 / 16 / 16 % 16 * 0x1000 + n / 16 / 16 % 16 * 0x100 + n / 16 % 16 * 0x10 + n % 16
  {
    var q1 := n / 16;
    var q2 := q1 / 16;
    var q3 := q2 / 16;
    assert n == 16 * q1 + n % 16;
    assert q1 == 16 * q2 + q1 % 16;
    assert q2 == 16 * q3 + q2 % 16;
    assert q3 < 16;
    assert q3 % 16 == q3;
  }

  /** Whether a code point lies in the Basic Multilingual Plane. */
  predicate IsBmp(cp: int) {
    0 <= cp < 0x1_0000
  }

  /** The leading (high) UTF-16 surrogate of a supplementary code point. */
  function HighSurrogate(cp: int): int {
    cp / 0x400 + (0xD800 - 0x1_0000 / 0x400)
  }

  /** The trailing (low) UTF-16 surrogate of a supplementary code point. */
  function LowSurrogate(cp: int): int {
    cp % 0x400 + 0xDC00
  }

  /** The code point a high and a low surrogate stand for. */
  function CombineSurrogates(hi: int, lo: int): int {
    (hi - 0xD800) * 0x400 + (lo - 0xDC00) + 0x1_0000
  }

  /**
   * A supplementary code point splits into a high surrogate in D800-DBFF and
   * a low surrogate in DC00-DFFF, and the pair stands for that code point again.
   */
  lemma SurrogatePair(cp: int)
    requires 0x1_0000 <= cp <= 0x10_FFFF
    ensures 0xD800 <= HighSurrogate(cp) <= 0xDBFF
    ensures 0xDC00 <= LowSurrogate(cp) <= 0xDFFF
    ensures CombineSurrogates(HighSurrogate(cp), LowSurrogate(cp)) == cp
  {
    assert cp == cp / 0x400 * 0x400 + cp % 0x400;
  }

  /** A pair of surrogates always stands for a supplementary code point. */
  lemma CombineInRange(hi: int, lo: int)
    requires 0xD800 <= hi <= 0xDBFF && 0xDC00 <= lo <= 0xDFFF
    ensures 0x1_0000 <= CombineSurrogates(hi, lo) <= 0x10_FFFF
  {
  }

  /** The UTF-16 code units of a code point: itself, or its two surrogates. */
  function Utf16(c: char): (r: seq<nat>)
  {
    var cp := c as int;
    if IsBmp(cp) then [cp] else [HighSurrogate(cp), LowSurrogate(cp)]
  }

  /** One `\\uXXXX` escape per code unit. */
  function UnitEscapes(units: seq<nat>): (r: string)
  {
    if units == [] then "" else "\\u" + Hex(units[0], 4) + UnitEscapes(units[1..])
  }

  /** What the fallback writes for a code point the output encoding cannot hold. */
  function Fallback(c: char): (r: string)
  {
    UnitEscapes(Utf16(c))
  }

  /** The encoding-aware print: the code point itself, or its fallback. */
  function Encoded(c: char, encodable: char -> bool): (r: string)
  {
    if encodable(c) then [c] else Fallback(c)
  }

  /** Backspace and form feed, which have no character literal of their own. */
  const Backspace: char := '\U{8}'
  const FormFeed: char := '\U{C}'

  /**
   * What `print` writes, with escaping on, for the eight code points it
   * treats specially: a backslash escape, or for `/` without solidus
   * escaping the bare `/`; None for every other code point.
   */
  function Special(c: char, escapeSolidus: bool): (r: Option<string>)
  {
    if c == Backspace then Some("\\b")
    else if c == FormFeed then Some("\\f")
    else if c == '\n' then Some("\\n")
    else if c == '\r' then Some("\\r")
    else if c == '\t' then Some("\\t")
    else if c == '"' then Some("\\\"")
    else if c == '/' then Some(if escapeSolidus then "\\/" else "/")
    else if c == '\\' then Some("\\\\")
    else None
  }

  /** What `print` writes for one code point. */
  function Print(c: char, escape: bool, escapeSolidus: bool, encodable: char -> bool): (r: string)
  {
    if escape && Special(c, escapeSolidus).Some? then Special(c, escapeSolidus).value
    else Encoded(c, encodable)
  }

  /**
   * The fallback writes a code point of the Basic Multilingual Plane as `\u`
   * and four hexadecimal digits, and any other as two such escapes, of its
   * high and then its low surrogate.
   */
  lemma FallbackShape(c: char)
    ensures IsBmp(c as int) ==> Fallback(c) == "\\u" + Hex(c as int, 4)
    ensures !IsBmp(c as int) ==>
      0xD800 <= HighSurrogate(c as int) <= 0xDBFF && 0xDC00 <= LowSurrogate(c as int) <= 0xDFFF &&
      Fallback(c) == "\\u" + Hex(HighSurrogate(c as int), 4) + "\\u" + Hex(LowSurrogate(c as int), 4)
    ensures |Fallback(c)| == if IsBmp(c as int) then 6 else 12
  {
    var cp := c as int;
    if IsBmp(cp) {
      assert Utf16(c) == [cp];
      assert UnitEscapes([cp]) == "\\u" + Hex(cp, 4) + UnitEscapes([]);
    } else {
      var hi, lo := HighSurrogate(cp), LowSurrogate(cp);
      SurrogatePair(cp);
      assert Utf16(c) == [hi, lo];
      assert [hi, lo][1..] == [lo];
      assert UnitEscapes([lo]) == "\\u" + Hex(lo, 4) + UnitEscapes([]);
      assert UnitEscapes([hi, lo]) == "\\u" + Hex(hi, 4) + UnitEscapes([lo]);
      AppendAssoc("\\u" + Hex(hi, 4), "\\u", Hex(lo, 4));
    }
  }

  /**
   * With escaping on, backspace, form feed, newline, carriage return, tab,
   * quotation mark and backslash are written as a backslash and the escape
   * letter that stands for them; `/` gets a backslash exactly when solidus
   * escaping is on.
   */
  lemma SpecialsWritten(c: char, escapeSolidus: bool, encodable: char -> bool)
    ensures c in [Backspace, FormFeed, '\n', '\r', '\t', '"', '\\'] ==>
      var r := Print(c, true, escapeSolidus, encodable);
      |r| == 2 && r[0] == '\\' && r[1] in ShortEscapes && r[1] != '/' && ShortEscaped(r[1]) == c
    ensures Print('/', true, escapeSolidus, encodable) == if escapeSolidus then "\\/" else "/"
  {
  }

  /**
   * With escaping off, no code point is escaped: each is written as itself
   * when the output encoding holds it and by the fallback otherwise,
   * whatever solidus escaping says.
   */
  lemma UnescapedPrint(c: char, escapeSolidus: bool, encodable: char -> bool)
    ensures encodable(c) ==> Print(c, false, escapeSolidus, encodable) == [c]
    ensures !encodable(c) ==> Print(c, false, escapeSolidus, encodable) == Fallback(c)
    ensures Print(c, false, escapeSolidus, encodable) == Print(c, false, !escapeSolidus, encodable)
  {
  }

  /** The texts `f` writes for the code points of `s`, one after the other. */
  function ConcatMap(s: string, f: char -> string): (r: string)
  {
    if s == [] then "" else f(s[0]) + ConcatMap(s[1..], f)
  }

  /** Writing one more code point appends what is written for it. */
  lemma {:induction false} ConcatMapAppend(s: string, c: char, f: char -> string)
    ensures ConcatMap(s + [c], f) == ConcatMap(s, f) + f(c)
  {
    var t := s + [c];
    if s == [] {
      assert t[1..] == [];
    } else {
      assert t[0] == s[0] && t[1..] == s[1..] + [c];
      ConcatMapAppend(s[1..], c, f);
    }
  }

  /** Concatenation is associative. */
  lemma AppendAssoc(a: string, b: string, c: string)
    ensures a + b + c == a + (b + c)
  {
  }

  /** `print` with its parameters fixed. */
  function Printer(escape: bool, escapeSolidus: bool, encodable: char -> bool): char -> string {
    c => Print(c, escape, escapeSolidus, encodable)
  }

  /** What `print` writes for every code point of a string, in order. */
  function PrintAll(s: string, escape: bool, escapeSolidus: bool, encodable: char -> bool): (r: string)
  {
    ConcatMap(s, Printer(escape, escapeSolidus, encodable))
  }

  /** Printing one more code point appends what `print` writes for it. */
  lemma PrintAllAppend(s: string, c: char, escape: bool, escapeSolidus: bool, encodable: char -> bool)
    ensures PrintAll(s + [c], escape, escapeSolidus, encodable)
         == PrintAll(s, escape, escapeSolidus, encodable) + Print(c, escape, escapeSolidus, encodable)
  {
    ConcatMapAppend(s, c, Printer(escape, escapeSolidus, encodable));
  }

  /** Whether a value is a UTF-16 surrogate, high or low. */
  predicate IsSurrogate(v: int) {
    0xD800 <= v <= 0xDFFF
  }

  /** Prefixes a decoded code point to a decoding result. */
  function Cons(c: char, rest: Option<string>): Option<string> {
    if rest.Some? then Some([c] + rest.value) else None
  }

  /** Letters that follow a backslash in a two-character escape. */
  const ShortEscapes: string := "bfnrt\"/\\"

  /** The code point a two-character escape stands for. */
  function ShortEscaped(letter: char): char {
    match letter
    case 'b' => Backspace
    case 'f' => FormFeed
    case 'n' => '\n'
    case 'r' => '\r'
    case 't' => '\t'
    case _ => letter
  }

  /** Whether a code point is a control character, below U+0020. */
  predicate IsControl(c: char) {
    c < ' '
  }

  /**
   * Decodes the body of a JSON string (section 7 of RFC 8259): escapes are
   * resolved, a surrogate pair of `\u` escapes becomes one code point, and an
   * unescaped quotation mark or control character, a broken escape or a
   * lone surrogate is an error.
   */
  function Unescape(s: string): (r: Option<string>)
    decreases |s|, 1
  {
    if s == [] then Some("")
    else if s[0] == '"' || IsControl(s[0]) then None
    else if s[0] != '\\' then Cons(s[0], Unescape(s[1..]))
    else if |s| < 2 then None
    else if s[1] in ShortEscapes then Cons(ShortEscaped(s[1]), Unescape(s[2..]))
    else if s[1] != 'u' || |s| < 6 then None
    else UnescapeCode(s)
  }

  /** Decodes a `\u` escape, or a surrogate pair of them, at the head of `s`. */
  function UnescapeCode(s: string): (r: Option<string>)
    requires |s| >= 6
    decreases |s|, 0
  {
    match ParseHex4(s[2..6])
    case None => None
    case Some(v) =>
      if !IsSurrogate(v) then Cons(v as char, Unescape(s[6..]))
      else if v > 0xDBFF || |s| < 12 || s[6..8] != "\\u" then None
      else
        match ParseHex4(s[8..12])
        case None => None
        case Some(w) =>
          if w < 0xDC00 || w > 0xDFFF then None
          else
            CombineInRange(v, w);
            Cons(CombineSurrogates(v, w) as char, Unescape(s[12..]))
  }

  /** A two-character escape decodes to the code point it stands for. */
  lemma UnescapeShort(s: string)
    requires |s| >= 2 && s[0] == '\\' && s[1] in ShortEscapes
    ensures Unescape(s) == Cons(ShortEscaped(s[1]), Unescape(s[2..]))
  {
  }

  /** A code point other than a quotation mark, a backslash or a control character stands for itself. */
  lemma UnescapeLiteral(s: string)
    requires |s| >= 1 && s[0] != '"' && s[0] != '\\' && !IsControl(s[0])
    ensures Unescape(s) == Cons(s[0], Unescape(s[1..]))
  {
  }

  /** A backslash followed by `u` is read as a `\u` escape. */
  lemma UnescapeIsCode(s: string)
    requires |s| >= 6 && s[0] == '\\' && s[1] == 'u'
    ensures Unescape(s) == UnescapeCode(s)
  {
  }

  /** One `\u` escape of a code point outside the surrogate range decodes to it. */
  lemma UnescapeSingle(s: string, v: int)
    requires |s| >= 6 && s[0] == '\\' && s[1] == 'u'
    requires ParseHex4(s[2..6]) == Some(v) && !IsSurrogate(v)
    ensures Unescape(s) == Cons(v as char, Unescape(s[6..]))
  {
    UnescapeIsCode(s);
  }

  /** Two `\u` escapes holding a high and a low surrogate decode to one code point. */
  lemma UnescapePair(s: string, hi: int, lo: int)
    requires |s| >= 12 && s[0] == '\\' && s[1] == 'u' && s[6..8] == "\\u"
    requires ParseHex4(s[2..6]) == Some(hi) && 0xD800 <= hi <= 0xDBFF
    requires ParseHex4(s[8..12]) == Some(lo) && 0xDC00 <= lo <= 0xDFFF
    ensures 0x1_0000 <= CombineSurrogates(hi, lo) <= 0x10_FFFF
    ensures Unescape(s) == Cons(CombineSurrogates(hi, lo) as char, Unescape(s[12..]))
  {
    CombineInRange(hi, lo);
    UnescapeIsCode(s);
    assert IsSurrogate(hi) && hi <= 0xDBFF;
  }

  /** The fallback of a code point decodes back to that code point. */
  lemma FallbackDecodes(c: char, rest: string)
    ensures Unescape(Fallback(c) + rest) == Cons(c, Unescape(rest))
  {
    var cp := c as int;
    if IsBmp(cp) {
      var h := Hex(cp, 4);
      var s := "\\u" + h + rest;
      assert Utf16(c) == [cp];
      assert UnitEscapes([cp]) == "\\u" + h + UnitEscapes([]);
      assert Fallback(c) + rest == s;
      assert s[2..6] == h && s[6..] == rest;
      Hex4RoundTrip(cp);
      UnescapeSingle(s, cp);
    } else {
      var hi, lo := HighSurrogate(cp), LowSurrogate(cp);
      SurrogatePair(cp);
      var h1, h2 := Hex(hi, 4), Hex(lo, 4);
      var s := "\\u" + h1 + "\\u" + h2 + rest;
      assert Utf16(c) == [hi, lo];
      assert [hi, lo][1..] == [lo];
      assert UnitEscapes([lo]) == "\\u" + h2 + UnitEscapes([]);
      assert UnitEscapes([hi, lo]) == "\\u" + h1 + UnitEscapes([lo]);
      assert Fallback(c) + rest == s;
      assert s[2..6] == h1 && s[6..8] == "\\u" && s[8..12] == h2 && s[12..] == rest;
      Hex4RoundTrip(hi);
      Hex4RoundTrip(lo);
      UnescapePair(s, hi, lo);
    }
  }

  /**
   * Whether `print` writes a control character as itself: one the output
   * encoding holds and that has no two-character escape in force.
   */
  predicate PrintsRawControl(c: char, escape: bool, escapeSolidus: bool, encodable: char -> bool) {
    IsControl(c) && encodable(c) && !(escape && Special(c, escapeSolidus).Some?)
  }

  /**
   * A control character without a two-character escape, which the output
   * encoding holds, is written as itself even with escaping on; JSON strings
   * do not allow it, and the decoder rejects what follows it.
   */
  lemma RawControlRejected(c: char, escape: bool, escapeSolidus: bool, encodable: char -> bool, rest: string)
    requires PrintsRawControl(c, escape, escapeSolidus, encodable)
    ensures Print(c, escape, escapeSolidus, encodable) == [c]
    ensures Unescape(Print(c, escape, escapeSolidus, encodable) + rest) == None
  {
    assert (Print(c, escape, escapeSolidus, encodable) + rest)[0] == c;
  }

  /**
   * With escaping on, what `print` writes for a code point decodes back to
   * that code point, whatever the output encoding can hold, unless it is a
   * control character written as itself.
   */
  lemma PrintDecodes(c: char, escapeSolidus: bool, encodable: char -> bool, rest: string)
    requires !PrintsRawControl(c, true, escapeSolidus, encodable)
    ensures Unescape(Print(c, true, escapeSolidus, encodable) + rest) == Cons(c, Unescape(rest))
  {
    match Special(c, escapeSolidus)
    case Some(t) => SpecialDecodes(c, escapeSolidus, rest);
    case None => EncodedDecodes(c, encodable, rest);
  }

  /** The escape written for a special code point decodes back to it. */
  lemma SpecialDecodes(c: char, escapeSolidus: bool, rest: string)
    requires Special(c, escapeSolidus).Some?
    ensures Unescape(Special(c, escapeSolidus).value + rest) == Cons(c, Unescape(rest))
  {
    if c == '/' && !escapeSolidus {
      assert ("/" + rest)[1..] == rest;
      UnescapeLiteral("/" + rest);
    } else {
      var letter := if c == Backspace then 'b' else if c == FormFeed then 'f'
        else if c == '\n' then 'n' else if c == '\r' then 'r' else if c == '\t' then 't' else c;
      assert Special(c, escapeSolidus).value == ['\\', letter];
      ShortDecodes(letter, rest);
    }
  }

  /** A backslash and an escape letter decode to the code point the letter stands for. */
  lemma ShortDecodes(letter: char, rest: string)
    requires letter in ShortEscapes
    ensures Unescape(['\\', letter] + rest) == Cons(ShortEscaped(letter), Unescape(rest))
  {
    var s := ['\\', letter] + rest;
    assert s[2..] == rest;
    UnescapeShort(s);
  }

  /**
   * What the encoding-aware print writes for a code point other than a
   * quotation mark or a backslash decodes back to it, unless it is a control
   * character written as itself.
   */
  lemma EncodedDecodes(c: char, encodable: char -> bool, rest: string)
    requires c != '"' && c != '\\' && !(IsControl(c) && encodable(c))
    ensures Unescape(Encoded(c, encodable) + rest) == Cons(c, Unescape(rest))
  {
    if encodable(c) {
      assert (Encoded(c, encodable) + rest)[1..] == rest;
      UnescapeLiteral(Encoded(c, encodable) + rest);
    } else {
      FallbackDecodes(c, rest);
    }
  }

  /**
   * With escaping on, every string written by `print` decodes back to the
   * string it was written from, unless it holds a control character that is
   * written as itself (see RawControlRejected).
   */
  lemma {:induction false} EscapedRoundTrip(s: string, escapeSolidus: bool, encodable: char -> bool)
    requires forall i :: 0 <= i < |s| ==> !PrintsRawControl(s[i], true, escapeSolidus, encodable)
    ensures Unescape(PrintAll(s, true, escapeSolidus, encodable)) == Some(s)
  {
    if s != [] {
      PrintDecodes(s[0], escapeSolidus, encodable, PrintAll(s[1..], true, escapeSolidus, encodable));
      EscapedRoundTrip(s[1..], escapeSolidus, encodable);
      assert [s[0]] + s[1..] == s;
    }
  }

  /**
   * With escaping off, a string the output encoding can hold entirely is
   * written unchanged.
   */
  lemma {:induction false} UnescapedVerbatim(s: string, escapeSolidus: bool, encodable: char -> bool)
    requires forall i :: 0 <= i < |s| ==> encodable(s[i])
    ensures PrintAll(s, false, escapeSolidus, encodable) == s
  {
    if s != [] {
      UnescapedVerbatim(s[1..], escapeSolidus, encodable);
      assert [s[0]] + s[1..] == s;
    }
  }

  /**
   * With escaping off, a string free of quotation marks, backslashes and
   * control characters written as themselves still decodes back to itself,
   * fallbacks included.
   */
  lemma {:induction false} UnescapedRoundTrip(s: string, escapeSolidus: bool, encodable: char -> bool)
    requires forall i :: 0 <= i < |s| ==>
      s[i] != '"' && s[i] != '\\' && !PrintsRawControl(s[i], false, escapeSolidus, encodable)
    ensures Unescape(PrintAll(s, false, escapeSolidus, encodable)) == Some(s)
  {
    if s != [] {
      EncodedDecodes(s[0], encodable, PrintAll(s[1..], false, escapeSolidus, encodable));
      UnescapedRoundTrip(s[1..], escapeSolidus, encodable);
      assert [s[0]] + s[1..] == s;
    }
  }
}
