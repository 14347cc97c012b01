/** Escapes in JSON strings against digits and tables written out. */
module JsonHex {
  import opened CText
  import opened JsonScan
  import opened JsonGrammar
  import opened JsonStrings
  import Utf8

  // ----- digits

  const LOWER: Text := "0123456789abcdef"
  const UPPER: Text := "0123456789ABCDEF"

  predicate IsDigit(c: char, d: nat)
    requires d < 16
  {
    |LOWER| == |UPPER| == 16 && (c == LOWER[d] || c == UPPER[d])
  }

  lemma {:induction false} DigitIs(c: char, d: nat)
    requires d < 16 && IsDigit(c, d)
    ensures DigitValue(c) == d && ('0' <= c <= '9' || 'a' <= c <= 'f' || 'A' <= c <= 'F')
  {
    if d < 10 {
      DecimalDigit(c, d);
    } else {
      LetterDigit(c, d);
    }
  }

  lemma {:induction false} DecimalDigit(c: char, d: nat)
    requires d < 10 && IsDigit(c, d)
    ensures c as int == '0' as int + d && '0' <= c <= '9'
  {
    assert LOWER[..10] == UPPER[..10] == "0123456789";
    assert LOWER[d] == LOWER[..10][d] && UPPER[d] == UPPER[..10][d];
    var digits := "0123456789";
    assert digits[0] == '0' && digits[1] == '1' && digits[2] == '2' && digits[3] == '3' && digits[4] == '4';
    assert digits[5] == '5' && digits[6] == '6' && digits[7] == '7' && digits[8] == '8' && digits[9] == '9';
  }

  lemma {:induction false} LetterDigit(c: char, d: nat)
    requires 10 <= d < 16 && IsDigit(c, d)
    ensures || (c as int == 'a' as int + (d - 10) && 'a' <= c <= 'f')
            || (c as int == 'A' as int + (d - 10) && 'A' <= c <= 'F')
  {
    assert LOWER[10] == 'a' && LOWER[11] == 'b' && LOWER[12] == 'c' && LOWER[13] == 'd' && LOWER[14] == 'e';
    assert LOWER[15] == 'f' && UPPER[15] == 'F';
    assert UPPER[10] == 'A' && UPPER[11] == 'B' && UPPER[12] == 'C' && UPPER[13] == 'D' && UPPER[14] == 'E';
  }

  /** Four digits, each in either case, that spell the number. */
  predicate Spells(h: Text, n: nat) {
    && |h| == 4 && n < 0x10000
    && IsDigit(h[0], n / 0x1000) && IsDigit(h[1], n / 0x100 % 0x10)
    && IsDigit(h[2], n / 0x10 % 0x10) && IsDigit(h[3], n % 0x10)
  }

  lemma {:induction false} FourDigits(n: nat)
    ensures n == n / 0x1000 * 0x1000 + n / 0x100 % 0x10 * 0x100 + n / 0x10 % 0x10 * 0x10 + n % 0x10
  {
    assert n / 0x100 == n / 0x1000 * 0x10 + n / 0x100 % 0x10;
    assert n / 0x10 == n / 0x100 * 0x10 + n / 0x10 % 0x10;
  }

  /** The reader's number for four digits in any mix of cases is the number they spell. */
  lemma {:induction false} NumberIsSpelt(h: Text, n: nat)
    requires Spells(h, n)
    ensures Number(h) == n && IsHex(h)
  {
    FourDigits(n);
    hide DigitValue, IsDigit;
    DigitIs(h[0], n / 0x1000);
    DigitIs(h[1], n / 0x100 % 0x10);
    DigitIs(h[2], n / 0x10 % 0x10);
    DigitIs(h[3], n % 0x10);
  }

  predicate IsHexDigit(c: char) {
    '0' <= c <= '9' || 'a' <= c <= 'f' || 'A' <= c <= 'F'
  }

  /** What a byte of an escape that is no digit counts for: nothing. */
  function Zeroed(c: Byte): Byte {
    if IsHexDigit(c) then c else '0'
  }

  /** An escape with other bytes in the place of digits is read as if they were zeros. */
  lemma {:induction false} JunkIsZero(s: Text, i: nat, n: nat, acc: nat)
    requires i < |s| && Partial(n, acc)
    ensures var z := seq(|s|, k requires 0 <= k < |s| => Zeroed(s[k]));
            ReadHex(s, i, n, acc) == ReadHex(z, i, n, acc)
    decreases n
  {
    hide IsHexDigit, Zeroed;
    var z := seq(|s|, k requires 0 <= k < |s| => Zeroed(s[k]));
    if n > 0 && i + 1 < |s| {
      ZeroedDigit(s[i + 1]);
      JunkIsZero(s, i + 1, n - 1, acc * 16 + DigitValue(s[i + 1]));
    }
  }

  lemma {:induction false} ZeroedDigit(c: Byte)
    ensures DigitValue(Zeroed(c)) == DigitValue(c)
  {
  }

  // ----- scalars

  /** One escape, or a pair of escapes above U+FFFF, that stands for the scalar (RFC 8259, section 7). */
  ghost predicate Escapes(e: Text, cp: nat) {
    || (cp < 0x10000 && exists h: Text :: Spells(h, cp) && e == "\\u" + h)
    || (cp >= 0x10000 && exists h: Text, l: Text {:trigger IsPair(e, cp, h, l)} :: IsPair(e, cp, h, l))
  }

  predicate IsPair(e: Text, cp: nat, h: Text, l: Text)
    requires cp >= 0x10000
  {
    && Spells(h, 0xD800 + (cp - 0x10000) / 0x400) && Spells(l, 0xDC00 + (cp - 0x10000) % 0x400)
    && e == "\\u" + h + "\\u" + l
  }

  lemma {:induction false} SurrogateParts(v: nat)
    requires v < 0x100000
    ensures 0xD800 <= 0xD800 + v / 0x400 <= 0xDBFF && 0xDC00 <= 0xDC00 + v % 0x400 <= 0xDFFF
    ensures v / 0x400 * 0x400 + v % 0x400 == v
  {
  }

  lemma {:induction false} PairJoins(h: Text, l: Text, cp: nat)
    requires 0x10000 <= cp < 0x110000
    requires Spells(h, 0xD800 + (cp - 0x10000) / 0x400) && Spells(l, 0xDC00 + (cp - 0x10000) % 0x400)
    ensures ValidPiece(Pair(h, l)) && Joined(h, l) == cp
  {
    hide Number, IsHex, Spells;
    SurrogateParts(cp - 0x10000);
    NumberIsSpelt(h, 0xD800 + (cp - 0x10000) / 0x400);
    NumberIsSpelt(l, 0xDC00 + (cp - 0x10000) % 0x400);
  }

  lemma {:induction false} OneEscapeDecodes(s: Text, i: nat, h: Text, cp: nat)
    requires Utf8.IsScalar(cp) && Spells(h, cp) && At(s, i, "\\u" + h)
    ensures i + 6 <= |s| && |h| == 4 && DecodeFrom(s, i) == Utf8.Encode(cp) + DecodeFrom(s, i + 6)
  {
    hide Number, IsHex, DecodeFrom, Utf8.Encode, IsDigit, At;
    NumberIsSpelt(h, cp);
    DecodesUni(s, i, h);
    AtIsInside(s, i, "\\u" + h);
  }

  lemma {:induction false} TwoEscapesDecode(s: Text, i: nat, e: Text, h: Text, l: Text, cp: nat)
    requires 0x10000 <= cp < 0x110000 && IsPair(e, cp, h, l) && At(s, i, e)
    ensures i + 12 <= |s| && |e| == 12 && DecodeFrom(s, i) == Utf8.Encode(cp) + DecodeFrom(s, i + 12)
  {
    hide Number, IsHex, DecodeFrom, Utf8.Encode, IsDigit, At, ValidPiece, Joined;
    PairJoins(h, l, cp);
    DecodesPair(s, i, h, l);
    AtIsInside(s, i, e);
  }

  /** Every scalar, escaped in either way and either case, is read as its own UTF-8 bytes. */
  lemma {:induction false} EscapedScalarDecodes(s: Text, i: nat, e: Text, cp: nat)
    requires Utf8.IsScalar(cp) && Escapes(e, cp) && At(s, i, e)
    ensures i + |e| <= |s| && DecodeFrom(s, i) == Utf8.Encode(cp) + DecodeFrom(s, i + |e|)
  {
    hide DecodeFrom, Utf8.Encode, Spells, At, IsPair;
    if cp < 0x10000 {
      var h: Text :| Spells(h, cp) && e == "\\u" + h;
      OneEscapeDecodes(s, i, h, cp);
    } else {
      var h: Text, l: Text :| IsPair(e, cp, h, l);
      TwoEscapesDecode(s, i, e, h, l, cp);
    }
  }

  lemma {:induction false} AtIsInside(s: Text, i: nat, x: Text)
    requires At(s, i, x)
    ensures i + |x| <= |s|
  {
  }

  // ----- short escapes

  const SHORT: Text := "\"\\/bfnrt"

  /** What the short escapes stand for, in the same order: quote, backslash, slash, and the control
      characters 8, 12, 10, 13 and 9. */
  function ShortMeans(k: nat): (n: nat)
    requires k < 8
  {
    if k == 0 then 0x22 else if k == 1 then 0x5C else if k == 2 then 0x2F
    else if k == 3 then 8 else if k == 4 then 12 else if k == 5 then 10 else if k == 6 then 13 else 9
  }

  lemma {:induction false} ShortBytes()
    ensures |SHORT| == 8 && SHORT[0] == '"' && SHORT[1] == '\\' && SHORT[2] == '/' && SHORT[3] == 'b'
    ensures SHORT[4] == 'f' && SHORT[5] == 'n' && SHORT[6] == 'r' && SHORT[7] == 't'
  {
  }

  /** A backslash and one of the eight bytes is read as the character that RFC 8259, section 7, gives it. */
  lemma {:induction false} ShortEscapeDecodes(s: Text, i: nat, k: nat)
    requires k < 8 && |SHORT| == 8 && At(s, i, ['\\', SHORT[k]])
    ensures i + 2 <= |s| && DecodeFrom(s, i) == [ShortMeans(k) as char] + DecodeFrom(s, i + 2)
  {
    ShortBytes();
    var c := SHORT[k];
    AtIsInside(s, i, ['\\', c]);
    assert Unescape(c) as int == ShortMeans(k);
    assert ValidPiece(Short(c));
    hide DecodeFrom, At, ShortMeans, Unescape;
    DecodesShort(s, i, c);
  }

  /** The emitter escapes a byte exactly when it must: by two bytes where there is a short escape, but for the
      slash, by six with the digits of the byte in lower case for the other control characters, and any other
      byte stands for itself. */
  lemma {:induction false} EmitterEscapes(c: Byte)
    ensures c as int >= 0x20 && c != '"' && c != '\\' ==> Escape(c) == [c]
    ensures c as int < 0x20 || c == '"' || c == '\\' ==>
              if exists k :: 0 <= k < 8 && k != 2 && ShortMeans(k) == c as int
              then exists k :: 0 <= k < 8 && k != 2 && ShortMeans(k) == c as int && |SHORT| == 8
                               && Escape(c) == ['\\', SHORT[k]]
              else |LOWER| == 16 && Escape(c) == "\\u00" + [LOWER[c as int / 16], LOWER[c as int % 16]]
  {
    ShortBytes();
    if c as int < 0x20 || c == '"' || c == '\\' {
      if k :| 0 <= k < 8 && k != 2 && ShortMeans(k) == c as int {
        ShortWritten(c, k);
      } else {
        NoShort(c);
        HexWritten(c);
      }
    }
  }

  lemma {:induction false} ShortWritten(c: Byte, k: nat)
    requires k < 8 && k != 2 && ShortMeans(k) == c as int
    ensures |SHORT| == 8 && Escape(c) == ['\\', SHORT[k]]
  {
    ShortBytes();
  }

  lemma {:induction false} NoShort(c: Byte)
    requires forall k :: 0 <= k < 8 && k != 2 ==> ShortMeans(k) != c as int
    ensures c != '"' && c != '\\' && c as int != 8 && c as int != 9 && c as int != 10
    ensures c as int != 12 && c as int != 13
  {
    assert ShortMeans(0) == 0x22 && ShortMeans(1) == 0x5C && ShortMeans(3) == 8 && ShortMeans(4) == 12;
    assert ShortMeans(5) == 10 && ShortMeans(6) == 13 && ShortMeans(7) == 9;
  }

  lemma {:induction false} LowerDigit(d: nat)
    requires d < 16
    ensures |LOWER| == 16 && HexDigit(d) == LOWER[d]
  {
    assert IsDigit(LOWER[d], d);
    if d < 10 {
      DecimalDigit(LOWER[d], d);
    } else {
      LetterDigit(LOWER[d], d);
      assert LOWER[10] == 'a' && LOWER[11] == 'b' && LOWER[12] == 'c' && LOWER[13] == 'd' && LOWER[14] == 'e';
      assert LOWER[15] == 'f';
    }
  }

  lemma {:induction false} HexWritten(c: Byte)
    requires c as int < 0x20 && c as int != 8 && c as int != 12 && c as int != 10 && c as int != 13 && c as int != 9
    ensures |LOWER| == 16 && Escape(c) == "\\u00" + [LOWER[c as int / 16], LOWER[c as int % 16]]
  {
    LowerDigit(c as int / 16);
    LowerDigit(c as int % 16);
  }
}
