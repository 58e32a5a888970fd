/** JSON string literals as `JSON.stringify` writes them, over UTF-16 code units, and a reader for them. */
module JsonStrings {
  import opened Prelude

  type Unit = u: int | 0 <= u < 0x10000
  type Text = seq<Unit>

  const QUOTE: Unit := 0x22
  const BACKSLASH: Unit := 0x5C

  predicate High(u: Unit) { 0xD800 <= u < 0xDC00 }

  predicate Low(u: Unit) { 0xDC00 <= u < 0xE000 }

  function HexDigit(d: int): Unit
    requires 0 <= d < 16
  {
    if d < 10 then 0x30 + d else 0x61 + d - 10
  }

  function DigitValue(u: Unit): Option<int> {
    if 0x30 <= u < 0x3A then Some(u - 0x30) else if 0x61 <= u < 0x67 then Some(u - 0x61 + 10) else None
  }

  /** `\uXXXX` */
  function UnicodeEscape(u: Unit): (r: Text)
    ensures |r| == 6 && r[0] == BACKSLASH && r[1] == 0x75
  {
    [BACKSLASH, 0x75, HexDigit(u / 0x1000), HexDigit(u / 0x100 % 16), HexDigit(u / 16 % 16), HexDigit(u % 16)]
  }

  /** The letter of a two-character escape. */
  function ShortEscape(u: Unit): Option<Unit> {
    if u == QUOTE || u == BACKSLASH then Some(u)
    else if u == 8 then Some(0x62)
    else if u == 9 then Some(0x74)
    else if u == 10 then Some(0x6E)
    else if u == 12 then Some(0x66)
    else if u == 13 then Some(0x72)
    else None
  }

  function ShortUnescape(letter: Unit): Option<Unit> {
    if letter == QUOTE || letter == BACKSLASH then Some(letter)
    else if letter == 0x62 then Some(8)
    else if letter == 0x74 then Some(9)
    else if letter == 0x6E then Some(10)
    else if letter == 0x66 then Some(12)
    else if letter == 0x72 then Some(13)
    else None
  }

  /** The text of a string literal between its quotes: control characters and unpaired surrogates are
      escaped, surrogate pairs are not. */
  function Escape(s: Text): Text {
    if s == [] then []
    else if ShortEscape(s[0]).Some? then [BACKSLASH, ShortEscape(s[0]).value] + Escape(s[1..])
    else if s[0] < 0x20 then UnicodeEscape(s[0]) + Escape(s[1..])
    else if High(s[0]) && |s| > 1 && Low(s[1]) then [s[0], s[1]] + Escape(s[2..])
    else if High(s[0]) || Low(s[0]) then UnicodeEscape(s[0]) + Escape(s[1..])
    else [s[0]] + Escape(s[1..])
  }

  function Literal(s: Text): Text {
    [QUOTE] + Escape(s) + [QUOTE]
  }

  /** Reads up to the closing quote: the string, and what follows the quote. */
  function Unescape(t: Text): Option<(Text, Text)> {
    if t == [] then None
    else if t[0] == QUOTE then Some(([], t[1..]))
    else if t[0] != BACKSLASH then Prepend(t[0], Unescape(t[1..]))
    else if |t| < 2 then None
    else if t[1] != 0x75 then
      if ShortUnescape(t[1]).None? then None else Prepend(ShortUnescape(t[1]).value, Unescape(t[2..]))
    else if |t| < 6 then None
    else
      match HexValue(t[2], t[3], t[4], t[5])
      case None => None
      case Some(u) => Prepend(u, Unescape(t[6..]))
  }

  function Prepend(u: Unit, r: Option<(Text, Text)>): Option<(Text, Text)> {
    if r.None? then None else Some(([u] + r.value.0, r.value.1))
  }

  function HexValue(a: Unit, b: Unit, c: Unit, d: Unit): Option<Unit> {
    if DigitValue(a).None? || DigitValue(b).None? || DigitValue(c).None? || DigitValue(d).None? then None
    else
      var v := 0x1000 * DigitValue(a).value + 0x100 * DigitValue(b).value + 16 * DigitValue(c).value + DigitValue(d).value;
      if 0 <= v < 0x10000 then Some(v) else None
  }

  lemma DigitReads(d: int)
    requires 0 <= d < 16
    ensures DigitValue(HexDigit(d)) == Some(d)
  {
  }

  lemma HexDigitsOf(u: Unit)
    ensures 0 <= u / 0x1000 < 16 && u == 0x1000 * (u / 0x1000) + 0x100 * (u / 0x100 % 16) + 16 * (u / 16 % 16) + u % 16
  {
  }

  lemma HexReads(a: int, b: int, c: int, d: int)
    requires 0 <= a < 16 && 0 <= b < 16 && 0 <= c < 16 && 0 <= d < 16
    ensures HexValue(HexDigit(a), HexDigit(b), HexDigit(c), HexDigit(d)) == Some(0x1000 * a + 0x100 * b + 16 * c + d)
  {
    DigitReads(a);
    DigitReads(b);
    DigitReads(c);
    DigitReads(d);
  }

  lemma UnicodeEscapeReads(u: Unit)
    ensures var e := UnicodeEscape(u); HexValue(e[2], e[3], e[4], e[5]) == Some(u)
  {
    HexDigitsOf(u);
    HexReads(u / 0x1000, u / 0x100 % 16, u / 16 % 16, u % 16);
  }

  lemma UnescapeUnicode(u: Unit, tail: Text)
    ensures Unescape(UnicodeEscape(u) + tail) == Prepend(u, Unescape(tail))
  {
    UnicodeEscapeReads(u);
    assert (UnicodeEscape(u) + tail)[6..] == tail;
  }

  lemma UnescapeShort(u: Unit, tail: Text)
    requires ShortEscape(u).Some?
    ensures Unescape([BACKSLASH, ShortEscape(u).value] + tail) == Prepend(u, Unescape(tail))
  {
    assert ([BACKSLASH, ShortEscape(u).value] + tail)[2..] == tail;
  }

  lemma UnescapePlain(u: Unit, tail: Text)
    requires u != QUOTE && u != BACKSLASH
    ensures Unescape([u] + tail) == Prepend(u, Unescape(tail))
  {
    assert ([u] + tail)[1..] == tail;
  }

  lemma PrependOne(s: Text, rest: Text)
    requires s != []
    ensures Prepend(s[0], Some((s[1..], rest))) == Some((s, rest))
  {
    assert [s[0]] + s[1..] == s;
  }

  predicate PairFirst(s: Text) {
    |s| > 1 && ShortEscape(s[0]).None? && s[0] >= 0x20 && High(s[0]) && Low(s[1])
  }

  lemma UnescapePair(s: Text, tail: Text)
    requires PairFirst(s)
    ensures Unescape([s[0], s[1]] + tail) == Prepend(s[0], Prepend(s[1], Unescape(tail)))
  {
    assert [s[0], s[1]] + tail == [s[0]] + ([s[1]] + tail);
    UnescapePlain(s[0], [s[1]] + tail);
    UnescapePlain(s[1], tail);
  }

  /** How a unit that is not part of a pair is written. */
  function Alone(u: Unit): Text {
    if ShortEscape(u).Some? then [BACKSLASH, ShortEscape(u).value]
    else if u < 0x20 || High(u) || Low(u) then UnicodeEscape(u)
    else [u]
  }

  lemma UnescapeAlone(u: Unit, tail: Text)
    ensures Unescape(Alone(u) + tail) == Prepend(u, Unescape(tail))
  {
    if ShortEscape(u).Some? {
      UnescapeShort(u, tail);
    } else if u < 0x20 || High(u) || Low(u) {
      UnescapeUnicode(u, tail);
    } else {
      UnescapePlain(u, tail);
    }
  }

  lemma {:induction false} EscapeFirst(s: Text, closing: Text)
    requires s != []
    ensures PairFirst(s) ==> Escape(s) + closing == [s[0], s[1]] + (Escape(s[2..]) + closing)
    ensures !PairFirst(s) ==> Escape(s) + closing == Alone(s[0]) + (Escape(s[1..]) + closing)
  {
    if PairFirst(s) {
      assert Escape(s) == [s[0], s[1]] + Escape(s[2..]);
    } else {
      assert Escape(s) == Alone(s[0]) + Escape(s[1..]);
    }
  }

  /** A string literal is read back as it was, whatever follows it. */
  lemma {:induction false} EscapeReads(s: Text, rest: Text)
    ensures Unescape(Escape(s) + ([QUOTE] + rest)) == Some((s, rest))
  {
    var closing := [QUOTE] + rest;
    if s == [] {
      assert Escape(s) + closing == closing && closing[1..] == rest;
    } else if PairFirst(s) {
      EscapeReads(s[2..], rest);
      EscapeFirst(s, closing);
      UnescapePair(s, Escape(s[2..]) + closing);
      assert s[1..][1..] == s[2..];
      PrependOne(s[1..], rest);
      PrependOne(s, rest);
    } else {
      EscapeReads(s[1..], rest);
      EscapeFirst(s, closing);
      UnescapeAlone(s[0], Escape(s[1..]) + closing);
      PrependOne(s, rest);
    }
  }

  /** So literals determine their strings, whatever follows them. */
  lemma LiteralInjective(s: Text, t: Text, x: Text, y: Text)
    requires Literal(s) + x == Literal(t) + y
    ensures s == t && x == y
  {
    assert (Literal(s) + x)[1..] == Escape(s) + ([QUOTE] + x);
    assert (Literal(t) + y)[1..] == Escape(t) + ([QUOTE] + y);
    EscapeReads(s, x);
    EscapeReads(t, y);
  }

  /** The escapes that ECMAScript asks for: seven characters have one of a single letter, the other control
      characters one of four hexadecimal digits, and an ordinary character stands for itself. */
  lemma EscapesAsSpecified(u: Unit, rest: Text)
    ensures u == 0x22 || u == 0x5C ==> Escape([u] + rest) == [0x5C, u] + Escape(rest)
    ensures u == 8 ==> Escape([u] + rest) == [0x5C, 0x62] + Escape(rest)
    ensures u == 9 ==> Escape([u] + rest) == [0x5C, 0x74] + Escape(rest)
    ensures u == 10 ==> Escape([u] + rest) == [0x5C, 0x6E] + Escape(rest)
    ensures u == 12 ==> Escape([u] + rest) == [0x5C, 0x66] + Escape(rest)
    ensures u == 13 ==> Escape([u] + rest) == [0x5C, 0x72] + Escape(rest)
    ensures u < 0x20 && u !in {8, 9, 10, 12, 13} ==>
              var low := u % 16;
              Escape([u] + rest) == [0x5C, 0x75, 0x30, 0x30, 0x30 + u / 16, if low < 10 then 0x30 + low else 0x57 + low] + Escape(rest)
    ensures 0x20 <= u < 0xD800 && u != 0x22 && u != 0x5C ==> Escape([u] + rest) == [u] + Escape(rest)
  {
    assert ([u] + rest)[1..] == rest;
  }
}
