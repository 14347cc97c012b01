/** Scalar values as UTF-8 (RFC 3629). */
module Utf8 {
  import opened Options
  import opened CText

  /** What the client writes for a code point, by shifts and masks. */
  function Encode(cp: nat): (r: seq<Octet>)
    requires cp < 0x110000
    ensures 1 <= |r| <= 4
  {
    if cp < 0x80 then [cp as char]
    else if cp < 0x800 then [(0xC0 + cp / 0x40) as char, (0x80 + cp % 0x40) as char]
    else if cp < 0x10000 then
      [(0xE0 + cp / 0x1000) as char, (0x80 + cp / 0x40 % 0x40) as char, (0x80 + cp % 0x40) as char]
    else
      [(0xF0 + cp / 0x40000) as char, (0x80 + cp / 0x1000 % 0x40) as char,
       (0x80 + cp / 0x40 % 0x40) as char, (0x80 + cp % 0x40) as char]
  }

  predicate IsContinuation(c: char) {
    0x80 <= c as int < 0xC0
  }

  predicate IsScalar(cp: nat) {
    cp < 0xD800 || 0xE000 <= cp < 0x110000
  }

  /** The length a lead byte announces, or 0 when it cannot begin a character. */
  function LeadLength(c: char): nat {
    if c as int < 0x80 then 1
    else if 0xC2 <= c as int < 0xE0 then 2
    else if 0xE0 <= c as int < 0xF0 then 3
    else if 0xF0 <= c as int < 0xF5 then 4
    else 0
  }

  /** The value of the six low bits of a continuation byte. */
  function Low(c: char): int {
    c as int - 0x80
  }

  /** The number that a lead byte and its continuation bytes spell. */
  function Spelled(b: seq<char>): int
    requires 1 <= |b| <= 4
  {
    match |b|
    case 1 => b[0] as int
    case 2 => (b[0] as int - 0xC0) * 0x40 + Low(b[1])
    case 3 => (b[0] as int - 0xE0) * 0x1000 + Low(b[1]) * 0x40 + Low(b[2])
    case _ => (b[0] as int - 0xF0) * 0x40000 + Low(b[1]) * 0x1000 + Low(b[2]) * 0x40 + Low(b[3])
  }

  /** The least scalar that needs n bytes; a shorter form of a larger number is overlong. */
  function Least(n: nat): nat {
    match n
    case 1 => 0
    case 2 => 0x80
    case 3 => 0x800
    case _ => 0x10000
  }

  /** The reader of RFC 3629: one well-formed character and no more, as a scalar value. */
  function Decode(b: seq<char>): Option<nat> {
    if |b| == 0 || |b| > 4 || LeadLength(b[0]) != |b| then None
    else if exists k :: 1 <= k < |b| && !IsContinuation(b[k]) then None
    else
      var cp := Spelled(b);
      if cp < Least(|b|) || !IsScalar(cp) then None else Some(cp)
  }

  lemma {:induction false} TwoBytesDecode(cp: nat)
    requires 0x80 <= cp < 0x800
    ensures Decode(Encode(cp)) == Some(cp)
  {
    assert cp == cp / 0x40 * 0x40 + cp % 0x40;
  }

  lemma {:induction false} ThreeBytesDecode(cp: nat)
    requires IsScalar(cp) && 0x800 <= cp < 0x10000
    ensures Decode(Encode(cp)) == Some(cp)
  {
    Digits(cp);
  }

  lemma {:induction false} FourBytesDecode(cp: nat)
    requires 0x10000 <= cp < 0x110000
    ensures Decode(Encode(cp)) == Some(cp)
  {
    Digits(cp);
    assert cp / 0x1000 == cp / 0x40000 * 0x40 + cp / 0x1000 % 0x40;
  }

  /** Every scalar value comes back from the bytes written for it. */
  lemma {:induction false} EncodeDecodes(cp: nat)
    requires IsScalar(cp)
    ensures Decode(Encode(cp)) == Some(cp)
  {
    if cp >= 0x10000 {
      FourBytesDecode(cp);
    } else if cp >= 0x800 {
      ThreeBytesDecode(cp);
    } else if cp >= 0x80 {
      TwoBytesDecode(cp);
    }
  }

  lemma {:induction false} Digits(cp: nat)
    ensures cp == cp / 0x1000 * 0x1000 + cp / 0x40 % 0x40 * 0x40 + cp % 0x40
  {
    assert cp / 0x40 == cp / 0x1000 * 0x40 + cp / 0x40 % 0x40;
  }

  lemma {:induction false} TwoDigits(x: nat, y: nat)
    requires y < 0x40
    ensures (x * 0x40 + y) / 0x40 == x && (x * 0x40 + y) % 0x40 == y
  {
  }

  lemma {:induction false} ThreeDigits(x: nat, y: nat, z: nat)
    requires y < 0x40 && z < 0x40
    ensures var n := x * 0x1000 + y * 0x40 + z; n / 0x1000 == x && n / 0x40 % 0x40 == y && n % 0x40 == z
  {
    TwoDigits(x * 0x40 + y, z);
    TwoDigits(x, y);
    assert (x * 0x1000 + y * 0x40 + z) / 0x1000 == (x * 0x40 + y) / 0x40;
  }

  lemma {:induction false} FourDigits(w: nat, x: nat, y: nat, z: nat)
    requires x < 0x40 && y < 0x40 && z < 0x40
    ensures var n := w * 0x40000 + x * 0x1000 + y * 0x40 + z;
            n / 0x40000 == w && n / 0x1000 % 0x40 == x && n / 0x40 % 0x40 == y && n % 0x40 == z
  {
    ThreeDigits(w * 0x40 + x, y, z);
    TwoDigits(w, x);
    assert (w * 0x40000 + x * 0x1000 + y * 0x40 + z) / 0x40000 == (w * 0x40 + x) / 0x40;
  }

  lemma {:induction false} AllContinuations(b: seq<char>)
    requires Decode(b).Some?
    ensures 1 <= |b| <= 4 && LeadLength(b[0]) == |b|
    ensures forall k :: 1 <= k < |b| ==> IsContinuation(b[k])
    ensures Decode(b).value == Spelled(b) >= Least(|b|) && IsScalar(Spelled(b))
  {
  }

  lemma {:induction false} OneByteEncodes(b: seq<char>)
    requires |b| == 1 && LeadLength(b[0]) == 1 && IsScalar(Spelled(b))
    ensures Encode(Spelled(b)) == b
  {
  }

  lemma {:induction false} TwoBytesEncode(b: seq<char>)
    requires |b| == 2 && LeadLength(b[0]) == 2 && IsContinuation(b[1]) && IsScalar(Spelled(b)) && Spelled(b) >= Least(2)
    ensures Encode(Spelled(b)) == b
  {
    TwoDigits(b[0] as int - 0xC0, Low(b[1]));
  }

  lemma {:induction false} ThreeBytesEncode(b: seq<char>)
    requires |b| == 3 && LeadLength(b[0]) == 3 && IsContinuation(b[1]) && IsContinuation(b[2])
    requires IsScalar(Spelled(b)) && Spelled(b) >= Least(3)
    ensures Encode(Spelled(b)) == b
  {
    ThreeDigits(b[0] as int - 0xE0, Low(b[1]), Low(b[2]));
  }

  lemma {:induction false} FourBytesEncode(b: seq<char>)
    requires |b| == 4 && LeadLength(b[0]) == 4 && IsContinuation(b[1]) && IsContinuation(b[2]) && IsContinuation(b[3])
    requires IsScalar(Spelled(b)) && Spelled(b) >= Least(4)
    ensures Encode(Spelled(b)) == b
  {
    FourDigits(b[0] as int - 0xF0, Low(b[1]), Low(b[2]), Low(b[3]));
  }

  /** And the reader accepts nothing else: what it reads is what the client would write. */
  lemma {:induction false} DecodeEncodes(b: seq<char>)
    requires Decode(b).Some?
    ensures Encode(Decode(b).value) == b
  {
    hide *;
    AllContinuations(b);
    match |b| {
      case 1 => OneByteEncodes(b);
      case 2 => TwoBytesEncode(b);
      case 3 => ThreeBytesEncode(b);
      case _ => FourBytesEncode(b);
    }
  }
}
