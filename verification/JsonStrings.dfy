/** JSON string literals: the emitter, the decoder, and that each undoes the other. */
module JsonStrings {
  import opened Options
  import opened CText
  import opened JsonScan
  import opened JsonGrammar
  import Utf8

  // ----- the emitter

  function HexDigit(d: nat): Byte
    requires d < 16
  {
    if d < 10 then ('0' as int + d) as char else ('a' as int + d - 10) as char
  }

  /** What one byte is written as between the quotes. */
  function Escape(c: Byte): Text {
    if c == '"' then "\\\""
    else if c == '\\' then "\\\\"
    else if c as int == 8 then "\\b"
    else if c as int == 12 then "\\f"
    else if c == '\n' then "\\n"
    else if c == '\r' then "\\r"
    else if c == '\t' then "\\t"
    else if c as int < 0x20 then "\\u00" + [HexDigit(c as int / 16), HexDigit(c as int % 16)]
    else [c]
  }

  function EscapeFrom(s: Text, k: nat): Text
    requires k <= |s|
    decreases |s| - k
  {
    if k == |s| then [] else Escape(s[k]) + EscapeFrom(s, k + 1)
  }

  function Quoted(s: Text): Text {
    QUOTE + EscapeFrom(s, 0) + QUOTE
  }

  lemma {:induction false} EscapeStep(done: seq<Octet>, s: Text, k: nat, whole: seq<Octet>)
    requires k < |s| && done + EscapeFrom(s, k) == whole
    ensures (done + Escape(s[k])) + EscapeFrom(s, k + 1) == whole
  {
    hide Escape;
  }

  method BufJsonStr(b: Buf, s: Text)
    requires b.Valid()
    modifies b, b.data
    ensures b.Valid() && (b.data == old(b.data) || fresh(b.data))
    ensures b.Contents() == old(b.Contents()) + Quoted(s)
  {
    ghost var start := b.Contents();
    ghost var whole := start + QUOTE + EscapeFrom(s, 0);
    assert EscapeFrom(s, |s|) == [];
    assert start + Quoted(s) == whole + QUOTE;
    hide EscapeFrom, Escape, Quoted, Buf.Valid, Buf.Contents;
    b.Char('"');
    for k := 0 to |s|
      invariant b.Valid() && (b.data == old(b.data) || fresh(b.data))
      invariant b.Contents() + EscapeFrom(s, k) == whole
    {
      EscapeStep(b.Contents(), s, k, whole);
      b.Append(Escape(s[k]));
    }
    assert b.Contents() == whole;
    b.Char('"');
  }

  // ----- the decoder

  function DigitValue(c: char): nat
    ensures DigitValue(c) < 16
  {
    if '0' <= c <= '9' then c as int - '0' as int
    else if 'a' <= c <= 'f' then c as int - 'a' as int + 10
    else if 'A' <= c <= 'F' then c as int - 'A' as int + 10
    else 0
  }

  /** The number read so far, with n of four digits still to come. */
  predicate Partial(n: nat, acc: nat) {
    match n
    case 0 => acc < 0x10000
    case 1 => acc < 0x1000
    case 2 => acc < 0x100
    case 3 => acc < 0x10
    case 4 => acc == 0
    case _ => false
  }

  /** The loop that reads up to n digits after index i: the number and the index of the last one. */
  function ReadHex(s: Text, i: nat, n: nat, acc: nat): (r: (nat, nat))
    requires i < |s| && Partial(n, acc)
    ensures i <= r.1 < |s| && r.0 < 0x10000
    decreases n
  {
    if n == 0 || i + 1 >= |s| then (acc, i)
    else ReadHex(s, i + 1, n - 1, acc * 16 + DigitValue(s[i + 1]))
  }

  /** The bytes for the escape whose u stands at i, and the index of its last byte. A high surrogate
      takes the escape after it along, and drops it when that is no low surrogate. */
  function UnicodeEscape(s: Text, i: nat): (r: (seq<Octet>, nat))
    requires i < |s|
    ensures i <= r.1 < |s|
  {
    var (cp, j) := ReadHex(s, i, 4, 0);
    if 0xD800 <= cp <= 0xDBFF && j + 2 < |s| && s[j + 1] == '\\' && s[j + 2] == 'u' then
      var (lo, k) := ReadHex(s, j + 2, 4, 0);
      (Utf8.Encode(if 0xDC00 <= lo <= 0xDFFF then 0x10000 + (cp - 0xD800) * 0x400 + (lo - 0xDC00) else cp), k)
    else (Utf8.Encode(cp), j)
  }

  /** A backslash and one byte that is not u; a byte without a meaning of its own stands for itself. */
  function Unescape(c: Byte): Octet {
    if c == 'b' then 8 as char
    else if c == 'f' then 12 as char
    else if c == 'n' then '\n'
    else if c == 'r' then '\r'
    else if c == 't' then '\t'
    else c
  }

  /** The bytes that the literal stands for whose body goes on at i. */
  function DecodeFrom(s: Text, i: nat): seq<Octet>
    requires i <= |s|
    decreases |s| - i
  {
    if i == |s| || s[i] == '"' then []
    else if s[i] != '\\' then [s[i]] + DecodeFrom(s, i + 1)
    else if i + 1 == |s| then ['\0']
    else if s[i + 1] == 'u' then
      var (bytes, j) := UnicodeEscape(s, i + 1);
      bytes + DecodeFrom(s, j + 1)
    else [Unescape(s[i + 1])] + DecodeFrom(s, i + 2)
  }

  /** jstr: what a caller sees of the decoded bytes, or nothing when the value is no string. */
  function StringValue(s: Text, key: Text): Option<Text> {
    match Find(s, key)
    case None => None
    case Some(v) => if v < |s| && s[v] == '"' then Some(CString(DecodeFrom(s, v + 1))) else None
  }

  method ScanHex(s: Text, i: nat) returns (cp: nat, j: nat)
    requires i < |s|
    ensures (cp, j) == ReadHex(s, i, 4, 0)
  {
    cp, j := 0, i;
    var k := 0;
    while k < 4 && j + 1 < |s|
      invariant k <= 4 && j < |s| && Partial(4 - k, cp) && ReadHex(s, j, 4 - k, cp) == ReadHex(s, i, 4, 0)
    {
      j := j + 1;
      cp := cp * 16 + DigitValue(s[j]);
      k := k + 1;
    }
  }

  method ScanUnicode(s: Text, i: nat) returns (bytes: seq<Octet>, j: nat)
    requires i < |s|
    ensures (bytes, j) == UnicodeEscape(s, i)
  {
    hide ReadHex, Utf8.Encode;
    var cp;
    cp, j := ScanHex(s, i);
    if 0xD800 <= cp <= 0xDBFF && j + 2 < |s| && s[j + 1] == '\\' && s[j + 2] == 'u' {
      var lo;
      lo, j := ScanHex(s, j + 2);
      if 0xDC00 <= lo <= 0xDFFF {
        cp := 0x10000 + (cp - 0xD800) * 0x400 + (lo - 0xDC00);
      }
    }
    bytes := Utf8.Encode(cp);
  }

  lemma {:induction false} DecodeStep(done: seq<Octet>, s: Text, v: nat, whole: seq<Octet>)
    requires v < |s| && s[v] != '"' && done + DecodeFrom(s, v) == whole && EscapesClosed(s)
    ensures s[v] != '\\' ==> (done + [s[v]]) + DecodeFrom(s, v + 1) == whole
    ensures s[v] == '\\' ==>
              && v + 1 < |s|
              && (s[v + 1] != 'u' ==> (done + [Unescape(s[v + 1])]) + DecodeFrom(s, v + 2) == whole)
              && (s[v + 1] == 'u' ==>
                    (done + UnicodeEscape(s, v + 1).0) + DecodeFrom(s, UnicodeEscape(s, v + 1).1 + 1) == whole)
  {
    hide UnicodeEscape, Unescape;
  }

  /** The decoding loop, into a buffer of its own. */
  method DecodeLiteral(s: Text, start: nat) returns (bytes: seq<Octet>)
    requires start <= |s| && EscapesClosed(s)
    ensures bytes == DecodeFrom(s, start)
  {
    hide UnicodeEscape, Unescape, DecodeFrom, EscapesClosed, Buf.Valid, Buf.Contents;
    ghost var whole := DecodeFrom(s, start);
    var b := new Buf();
    var v := start;
    assert b.Contents() + whole == whole;
    while v < |s| && s[v] != '"'
      invariant v <= |s| && b.Valid() && fresh(b) && fresh(b.data)
      invariant b.Contents() + DecodeFrom(s, v) == whole
      decreases |s| - v
    {
      DecodeStep(b.Contents(), s, v, whole);
      if s[v] == '\\' {
        v := v + 1;
        if s[v] == 'u' {
          var cs;
          cs, v := ScanUnicode(s, v);
          b.Append(cs);
        } else {
          b.Char(Unescape(s[v]));
        }
      } else {
        b.Char(s[v]);
      }
      v := v + 1;
    }
    DecodeStops(s, v);
    assert b.Contents() == whole;
    bytes := b.Bytes();
  }

  lemma {:induction false} DecodeStops(s: Text, v: nat)
    requires v <= |s| && (v < |s| ==> s[v] == '"')
    ensures DecodeFrom(s, v) == []
  {
  }

  method Jstr(s: Text, key: Text) returns (r: Option<Text>)
    requires ScanSafe(s)
    ensures r == StringValue(s, key)
  {
    var v := Jfind(s, key);
    if v.None? || v.value == |s| || s[v.value] != '"' {
      return None;
    }
    var bytes := DecodeLiteral(s, v.value + 1);
    return Some(CString(bytes));
  }

  // ----- the grammar of string bodies (RFC 8259, section 7) and what they mean

  datatype Piece =
    | Plain(c: Byte)
    | Short(c: Byte)
    | Uni(hex: Text)
    | Pair(high: Text, low: Text)

  predicate IsHex(h: Text) {
    |h| == 4 && forall k :: 0 <= k < 4 ==> '0' <= h[k] <= '9' || 'a' <= h[k] <= 'f' || 'A' <= h[k] <= 'F'
  }

  function Number(h: Text): (n: nat)
    requires |h| == 4
    ensures n < 0x10000
  {
    DigitValue(h[0]) * 0x1000 + DigitValue(h[1]) * 0x100 + DigitValue(h[2]) * 0x10 + DigitValue(h[3])
  }

  predicate ValidPiece(p: Piece) {
    match p
    case Plain(c) => c != '"' && c != '\\'
    case Short(c) => c in "\"\\/bfnrt"
    case Uni(h) => IsHex(h) && Utf8.IsScalar(Number(h))
    case Pair(h, l) => IsHex(h) && IsHex(l) && 0xD800 <= Number(h) <= 0xDBFF && 0xDC00 <= Number(l) <= 0xDFFF
  }

  predicate ValidPieces(ps: seq<Piece>) {
    forall k :: 0 <= k < |ps| ==> ValidPiece(ps[k])
  }

  function RenderPiece(p: Piece): (r: Text)
    ensures r != []
  {
    match p
    case Plain(c) => [c]
    case Short(c) => ['\\', c]
    case Uni(h) => "\\u" + h
    case Pair(h, l) => "\\u" + h + "\\u" + l
  }

  /** The scalar value that a surrogate pair stands for. */
  function Joined(h: Text, l: Text): (cp: nat)
    requires ValidPiece(Pair(h, l))
    ensures 0x10000 <= cp < 0x110000
  {
    0x10000 + (Number(h) - 0xD800) * 0x400 + (Number(l) - 0xDC00)
  }

  function MeaningOf(p: Piece): seq<Octet>
    requires ValidPiece(p)
  {
    match p
    case Plain(c) => [c]
    case Short(c) => [Unescape(c)]
    case Uni(h) => Utf8.Encode(Number(h))
    case Pair(h, l) => Utf8.Encode(Joined(h, l))
  }

  function RenderPieces(ps: seq<Piece>): Text {
    if ps == [] then [] else RenderPiece(ps[0]) + RenderPieces(ps[1..])
  }

  function Meaning(ps: seq<Piece>): seq<Octet>
    requires ValidPieces(ps)
  {
    if ps == [] then [] else MeaningOf(ps[0]) + Meaning(ps[1..])
  }

  lemma {:induction false} ReadsHex(s: Text, i: nat, h: Text)
    requires At(s, i + 1, h) && |h| == 4
    ensures i + 4 < |s| && ReadHex(s, i, 4, 0) == (Number(h), i + 4)
  {
    AtByte(s, i + 1, h, 0);
    AtByte(s, i + 1, h, 1);
    AtByte(s, i + 1, h, 2);
    AtByte(s, i + 1, h, 3);
    var a := DigitValue(h[0]);
    var b := a * 16 + DigitValue(h[1]);
    var c := b * 16 + DigitValue(h[2]);
    hide At, DigitValue;
    assert ReadHex(s, i, 4, 0) == ReadHex(s, i + 1, 3, a);
    assert ReadHex(s, i + 1, 3, a) == ReadHex(s, i + 2, 2, b);
    assert ReadHex(s, i + 2, 2, b) == ReadHex(s, i + 3, 1, c);
  }

  lemma {:induction false} PieceLength(p: Piece)
    requires ValidPiece(p)
    ensures |RenderPiece(p)| == match p case Plain(_) => 1 case Short(_) => 2 case Uni(_) => 6 case Pair(_, _) => 12
  {
  }

  lemma {:induction false} DecodesPlain(s: Text, i: nat, c: Byte)
    requires At(s, i, [c]) && ValidPiece(Plain(c))
    ensures DecodeFrom(s, i) == [c] + DecodeFrom(s, i + 1)
  {
    AtByte(s, i, [c], 0);
  }

  lemma {:induction false} DecodesShort(s: Text, i: nat, c: Byte)
    requires At(s, i, ['\\', c]) && ValidPiece(Short(c))
    ensures DecodeFrom(s, i) == [Unescape(c)] + DecodeFrom(s, i + 2)
  {
    AtByte(s, i, ['\\', c], 0);
    AtByte(s, i, ['\\', c], 1);
  }

  /** One piece is decoded to its meaning, whatever follows it. */
  lemma {:induction false} DecodesPiece(s: Text, i: nat, p: Piece)
    requires At(s, i, RenderPiece(p)) && ValidPiece(p)
    ensures DecodeFrom(s, i) == MeaningOf(p) + DecodeFrom(s, i + |RenderPiece(p)|)
  {
    PieceLength(p);
    hide At, DecodeFrom, IsHex, Number;
    match p
    case Plain(c) =>
      DecodesPlain(s, i, c);
    case Short(c) =>
      DecodesShort(s, i, c);
    case Uni(h) =>
      DecodesUni(s, i, h);
    case Pair(h, l) =>
      DecodesPair(s, i, h, l);
  }

  lemma {:induction false} UnicodeTurn(s: Text, i: nat)
    requires i + 1 < |s| && s[i] == '\\' && s[i + 1] == 'u'
    ensures var (bytes, j) := UnicodeEscape(s, i + 1); DecodeFrom(s, i) == bytes + DecodeFrom(s, j + 1)
  {
    hide UnicodeEscape;
  }

  lemma {:induction false} AtUnicode(s: Text, i: nat, h: Text)
    requires At(s, i, "\\u" + h) && |h| == 4
    ensures i + 6 <= |s| && s[i] == '\\' && s[i + 1] == 'u' && ReadHex(s, i + 1, 4, 0) == (Number(h), i + 5)
  {
    AtSplits(s, i, "\\u", h);
    AtByte(s, i, "\\u", 0);
    AtByte(s, i, "\\u", 1);
    ReadsHex(s, i + 1, h);
  }

  lemma {:induction false} DecodesUni(s: Text, i: nat, h: Text)
    requires At(s, i, "\\u" + h) && ValidPiece(Uni(h))
    ensures DecodeFrom(s, i) == Utf8.Encode(Number(h)) + DecodeFrom(s, i + 6)
  {
    assert |h| == 4;
    hide At, ReadHex, Number, Utf8.Encode, IsHex, DecodeFrom;
    AtUnicode(s, i, h);
    UnicodeTurn(s, i);
  }

  lemma {:induction false} AtPair(s: Text, i: nat, h: Text, l: Text)
    requires At(s, i, "\\u" + h + "\\u" + l) && |h| == 4
    ensures At(s, i, "\\u" + h) && At(s, i + 6, "\\u" + l)
  {
    hide At;
    assert "\\u" + h + "\\u" + l == ("\\u" + h) + ("\\u" + l);
    AtSplits(s, i, "\\u" + h, "\\u" + l);
  }

  lemma {:induction false} PairValue(s: Text, i: nat, h: Text, l: Text)
    requires ValidPiece(Pair(h, l)) && i + 12 <= |s|
    requires ReadHex(s, i + 1, 4, 0) == (Number(h), i + 5) && ReadHex(s, i + 7, 4, 0) == (Number(l), i + 11)
    requires s[i + 6] == '\\' && s[i + 7] == 'u'
    ensures UnicodeEscape(s, i + 1) == (Utf8.Encode(Joined(h, l)), i + 11)
  {
    hide ReadHex, Number, Utf8.Encode, IsHex;
  }

  lemma {:induction false} DecodesPair(s: Text, i: nat, h: Text, l: Text)
    requires At(s, i, "\\u" + h + "\\u" + l) && ValidPiece(Pair(h, l))
    ensures DecodeFrom(s, i) == Utf8.Encode(Joined(h, l)) + DecodeFrom(s, i + 12)
  {
    hide *;
    PieceLength(Pair(h, l));
    HexLength(h, l);
    AtPair(s, i, h, l);
    AtUnicode(s, i, h);
    AtUnicode(s, i + 6, l);
    PairValue(s, i, h, l);
    UnicodeTurn(s, i);
  }

  lemma {:induction false} HexLength(h: Text, l: Text)
    requires ValidPiece(Pair(h, l))
    ensures |h| == 4 && |l| == 4
  {
  }

  /** A well-formed body, closed by its quote, is decoded to its meaning. */
  lemma {:induction false} DecodesPieces(s: Text, i: nat, ps: seq<Piece>)
    requires At(s, i, RenderPieces(ps) + QUOTE) && ValidPieces(ps)
    ensures DecodeFrom(s, i) == Meaning(ps)
    decreases |ps|
  {
    if ps == [] {
      AtSplits(s, i, [], QUOTE);
      AtByte(s, i, QUOTE, 0);
    } else {
      var p, rest := RenderPiece(ps[0]), RenderPieces(ps[1..]);
      assert RenderPieces(ps) + QUOTE == p + (rest + QUOTE);
      assert Meaning(ps) == MeaningOf(ps[0]) + Meaning(ps[1..]);
      assert ValidPieces(ps[1..]);
      hide *;
      AtSplits(s, i, p, rest + QUOTE);
      DecodesPiece(s, i, ps[0]);
      DecodesPieces(s, i + |p|, ps[1..]);
    }
  }

  lemma {:induction false} PiecesAreBody(ps: seq<Piece>)
    requires ValidPieces(ps)
    ensures StringBody(RenderPieces(ps))
  {
    if ps != [] {
      PiecesAreBody(ps[1..]);
      PieceThenBody(ps[0], RenderPieces(ps[1..]));
    }
  }

  lemma {:induction false} PieceThenBody(p: Piece, rest: Text)
    requires ValidPiece(p) && StringBody(rest)
    ensures StringBody(RenderPiece(p) + rest)
  {
    hide StringBody, IsHex;
    match p
    case Plain(c) =>
      NormalThenBody(c, rest);
    case Short(c) =>
      ShortThenBody(c, rest);
    case Uni(h) =>
      UnicodeThenBody(h, rest);
    case Pair(h, l) =>
      PairThenBody(h, l, rest);
  }

  lemma {:induction false} ShortThenBody(c: Byte, rest: Text)
    requires StringBody(rest)
    ensures StringBody(['\\', c] + rest)
  {
    assert (['\\', c] + rest)[2..] == rest;
  }

  lemma {:induction false} PairThenBody(h: Text, l: Text, rest: Text)
    requires IsHex(h) && IsHex(l) && StringBody(rest)
    ensures StringBody("\\u" + h + "\\u" + l + rest)
  {
    hide StringBody, IsHex;
    var tail: Text := "\\u" + l + rest;
    UnicodeThenBody(l, rest);
    UnicodeThenBody(h, tail);
    assert "\\u" + h + tail == "\\u" + h + "\\u" + l + rest;
  }

  lemma {:induction false} UnicodeThenBody(h: Text, rest: Text)
    requires IsHex(h) && StringBody(rest)
    ensures StringBody("\\u" + h + rest)
  {
    HexThenBody(h, rest);
    assert ("\\u" + h + rest)[2..] == h + rest;
    hide IsHex;
  }

  lemma {:induction false} HexThenBody(h: Text, rest: Text)
    requires IsHex(h) && StringBody(rest)
    ensures StringBody(h + rest)
  {
    NormalThenBody(h[3], rest);
    NormalThenBody(h[2], [h[3]] + rest);
    NormalThenBody(h[1], [h[2]] + ([h[3]] + rest));
    NormalThenBody(h[0], [h[1]] + ([h[2]] + ([h[3]] + rest)));
    assert h + rest == [h[0]] + ([h[1]] + ([h[2]] + ([h[3]] + rest)));
  }

  lemma {:induction false} NormalThenBody(c: Byte, rest: Text)
    requires c != '"' && c != '\\' && StringBody(rest)
    ensures StringBody([c] + rest)
  {
    assert ([c] + rest)[1..] == rest;
  }

  // ----- round trips

  /** How the emitter chooses to write one byte. */
  function PieceFor(c: Byte): Piece {
    if c == '"' then Short('"')
    else if c == '\\' then Short('\\')
    else if c as int == 8 then Short('b')
    else if c as int == 12 then Short('f')
    else if c == '\n' then Short('n')
    else if c == '\r' then Short('r')
    else if c == '\t' then Short('t')
    else if c as int < 0x20 then Uni("00" + [HexDigit(c as int / 16), HexDigit(c as int % 16)])
    else Plain(c)
  }

  function PiecesFor(s: Text): (ps: seq<Piece>)
    ensures |ps| == |s|
  {
    seq(|s|, k requires 0 <= k < |s| => PieceFor(s[k]))
  }

  lemma {:induction false} PieceForMeansByte(c: Byte)
    ensures ValidPiece(PieceFor(c)) && RenderPiece(PieceFor(c)) == Escape(c) && MeaningOf(PieceFor(c)) == [c]
  {
    if c as int < 0x20 && PieceFor(c).Uni? {
      var h := PieceFor(c).hex;
      assert "\\u" + h == "\\u00" + [HexDigit(c as int / 16), HexDigit(c as int % 16)];
      assert DigitValue(h[2]) == c as int / 16 && DigitValue(h[3]) == c as int % 16;
      assert Number(h) == c as int;
    }
  }

  /** What the emitter writes is a well-formed body, and it means the bytes it was given. */
  lemma {:induction false} EmitterWritesPieces(s: Text, k: nat)
    requires k <= |s|
    ensures ValidPieces(PiecesFor(s)[k..])
    ensures EscapeFrom(s, k) == RenderPieces(PiecesFor(s)[k..])
    ensures Meaning(PiecesFor(s)[k..]) == s[k..]
    decreases |s| - k
  {
    forall j | 0 <= j < |s| ensures ValidPiece(PiecesFor(s)[j]) {
      PieceForMeansByte(s[j]);
    }
    if k < |s| {
      EmitterWritesPieces(s, k + 1);
      PieceForMeansByte(s[k]);
      assert PiecesFor(s)[k..][1..] == PiecesFor(s)[k + 1..];
      assert s[k..] == [s[k]] + s[k + 1..];
      hide RenderPiece, Escape, PieceFor, MeaningOf, ValidPiece;
    }
  }

  /** In any object, a string written as pieces comes back as their meaning, cut at a zero byte. */
  lemma {:induction false} StringMemberDecodes(s: Text, pad: Text, ms: Members, key: Text, ps: seq<Piece>, at: nat)
    requires IsObjectText(s, pad, ms) && ValidPieces(ps)
    requires Lookup(ms, key) == Some((Str(RenderPieces(ps)), at))
    ensures StringValue(s, key) == Some(CString(Meaning(ps)))
  {
    hide IsObjectText, Lookup, CString, Meaning, RenderPieces, ValidPieces, WellFormed;
    LookupInObject(s, pad, ms, key);
    var v := |pad| + 1 + at;
    var body := RenderPieces(ps);
    assert QUOTE + body + QUOTE == QUOTE + (body + QUOTE);
    AtSplits(s, v, QUOTE, body + QUOTE);
    AtByte(s, v, QUOTE, 0);
    hide At, DecodeFrom, Find, Delimited;
    DecodesPieces(s, v + 1, ps);
  }

  /** A member that is no string yields nothing. */
  lemma {:induction false} OtherMemberIsNoString(s: Text, pad: Text, ms: Members, key: Text)
    requires IsObjectText(s, pad, ms)
    requires Lookup(ms, key).None? || !Lookup(ms, key).value.0.Str?
    ensures StringValue(s, key) == None
  {
    hide IsObjectText, CString, DecodeFrom, Find;
    LookupInObject(s, pad, ms, key);
    match Lookup(ms, key)
    case None =>
    case Some((v, at)) =>
      FirstByte(v);
      AtByte(s, |pad| + 1 + at, Render(v), 0);
  }

  /** Whatever C string the emitter writes as the value of a member, the decoder reads back. */
  lemma {:induction false} EmittedStringComesBack(s: Text, pad: Text, ms: Members, key: Text, t: Text, at: nat)
    requires IsObjectText(s, pad, ms)
    requires Lookup(ms, key) == Some((Str(EscapeFrom(t, 0)), at))
    ensures StringValue(s, key) == Some(t)
  {
    hide IsObjectText, Lookup, CString, Meaning, RenderPieces, ValidPieces, EscapeFrom, PiecesFor;
    EmitterWritesPieces(t, 0);
    assert PiecesFor(t)[0..] == PiecesFor(t) && t[0..] == t;
    StringMemberDecodes(s, pad, ms, key, PiecesFor(t), at);
    NoZeroIsWhole(t);
  }

  /** The decoded string reaches the caller whole exactly when the literal does not spell U+0000. */
  lemma {:induction false} WholeUnlessZero(s: Text, pad: Text, ms: Members, key: Text, ps: seq<Piece>, at: nat)
    requires IsObjectText(s, pad, ms) && ValidPieces(ps)
    requires Lookup(ms, key) == Some((Str(RenderPieces(ps)), at))
    ensures StringValue(s, key).Some?
    ensures StringValue(s, key).value == Meaning(ps)
            <==> forall k :: 0 <= k < |ps| ==> !(ps[k].Uni? && ps[k].hex == "0000")
  {
    hide IsObjectText, Lookup, CString, RenderPieces, ValidPieces, Meaning, StringValue;
    StringMemberDecodes(s, pad, ms, key, ps, at);
    NoZeroIsWhole(Meaning(ps));
    ZeroOnlyFromZeroEscape(ps);
  }

  lemma {:induction false} ZeroOnlyFromZeroEscape(ps: seq<Piece>)
    requires ValidPieces(ps)
    ensures '\0' in Meaning(ps) <==> exists k :: 0 <= k < |ps| && ps[k].Uni? && ps[k].hex == "0000"
  {
    if ps != [] {
      ZeroOnlyFromZeroEscape(ps[1..]);
      ZeroPiece(ps[0]);
      hide Meaning, MeaningOf;
      assert Meaning(ps) == MeaningOf(ps[0]) + Meaning(ps[1..]);
    }
  }

  lemma {:induction false} ZeroPiece(p: Piece)
    requires ValidPiece(p)
    ensures '\0' in MeaningOf(p) <==> p.Uni? && p.hex == "0000"
  {
  }

  // ----- names are compared as written

  lemma {:induction false} PieceShrinks(p: Piece)
    requires ValidPiece(p)
    ensures |MeaningOf(p)| <= |RenderPiece(p)|
    ensures |MeaningOf(p)| == |RenderPiece(p)| <==> p.Plain?
    ensures p.Plain? ==> MeaningOf(p) == RenderPiece(p)
  {
  }

  lemma {:induction false} PiecesShrink(ps: seq<Piece>)
    requires ValidPieces(ps)
    ensures |Meaning(ps)| <= |RenderPieces(ps)|
    ensures |Meaning(ps)| == |RenderPieces(ps)| ==> forall k :: 0 <= k < |ps| ==> ps[k].Plain?
    ensures (forall k :: 0 <= k < |ps| ==> ps[k].Plain?) ==> Meaning(ps) == RenderPieces(ps)
  {
    if ps != [] {
      PiecesShrink(ps[1..]);
      PieceShrinks(ps[0]);
      hide MeaningOf, RenderPiece;
      assert Meaning(ps) == MeaningOf(ps[0]) + Meaning(ps[1..]);
      forall k | 0 <= k < |ps| && |Meaning(ps)| == |RenderPieces(ps)| ensures ps[k].Plain? {
        if k > 0 {
          assert ps[1..][k - 1] == ps[k];
        }
      }
    }
  }

  /** Values found under different names stand at different places. */
  lemma {:induction false} PlacesDiffer(ms: Members, key: Text, other: Text)
    requires key != other && Lookup(ms, key).Some? && Lookup(ms, other).Some?
    ensures Lookup(ms, key).value.1 != Lookup(ms, other).value.1
  {
    hide RenderName, Render;
    match ms
    case LastMember(m) =>
    case MoreMembers(m, rest) =>
      if m.key != key && m.key != other {
        PlacesDiffer(rest, key, other);
      }
  }

  /** Lookup compares names as they are written. In any object, the value of the first member written as ps is
      therefore found under the string that the name means exactly when the name has no escapes. */
  lemma {:induction false} FoundUnderItsMeaning(ps: seq<Piece>, pad: Text, ms: Members, s: Text, v: Json, at: nat)
    requires ValidPieces(ps) && IsObjectText(s, pad, ms) && Lookup(ms, RenderPieces(ps)) == Some((v, at))
    requires CString(Meaning(ps)) == Meaning(ps)
    ensures Find(s, CString(Meaning(ps))) == Some(|pad| + 1 + at) <==> forall k :: 0 <= k < |ps| ==> ps[k].Plain?
  {
    hide IsObjectText, Find, RenderPieces, Meaning, ValidPieces, CString, At, WellFormed, Lookup;
    PiecesShrink(ps);
    var t := CString(Meaning(ps));
    LookupInObject(s, pad, ms, t);
    if t != RenderPieces(ps) && Lookup(ms, t).Some? {
      PlacesDiffer(ms, RenderPieces(ps), t);
    }
  }
}
