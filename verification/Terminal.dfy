/** A terminal: the bytes it shows and the attributes it shows them in (ECMA-48, section 8.3.117). */
module Terminal {
  import opened CText

  /** Colour is the number that selects it, 39 for the default. */
  datatype Attr = Attr(bold: bool, faint: bool, italic: bool, underline: bool, strike: bool, colour: nat)

  const NORMAL := Attr(false, false, false, false, false, 39)

  /** What one number of an SGR sequence selects. */
  function Select(a: Attr, n: nat): Attr {
    if n == 0 then NORMAL
    else if n == 1 then a.(bold := true)
    else if n == 2 then a.(faint := true)
    else if n == 3 then a.(italic := true)
    else if n == 4 then a.(underline := true)
    else if n == 9 then a.(strike := true)
    else if n == 22 then a.(bold := false, faint := false)
    else if n == 23 then a.(italic := false)
    else if n == 24 then a.(underline := false)
    else if n == 29 then a.(strike := false)
    else if 30 <= n <= 37 || n == 39 then a.(colour := n)
    else a
  }

  function SelectAll(a: Attr, ns: seq<nat>): Attr {
    if ns == [] then a else Select(SelectAll(a, ns[..|ns| - 1]), ns[|ns| - 1])
  }

  /** Showing bytes, past an escape, or in the numbers of a sequence: those that are complete and the last. */
  datatype Mode = Showing | Escape | Numbers(done: seq<nat>, last: nat)

  datatype Screen = Screen(cells: seq<(Octet, Attr)>, attr: Attr, mode: Mode)

  const ESC: Octet := '\U{1B}'

  function Put(t: Screen, c: Octet): Screen {
    match t.mode
    case Showing => if c == ESC then t.(mode := Escape) else t.(cells := t.cells + [(c, t.attr)])
    case Escape => t.(mode := if c == '[' then Numbers([], 0) else Showing)
    case Numbers(done, last) =>
      if '0' <= c <= '9' then t.(mode := Numbers(done, 10 * last + (c as int - '0' as int)))
      else if c == ';' then t.(mode := Numbers(done + [last], 0))
      else Screen(t.cells, if c == 'm' then SelectAll(t.attr, done + [last]) else t.attr, Showing)
  }

  function PutAll(t: Screen, bytes: seq<Octet>): Screen {
    if bytes == [] then t else Put(PutAll(t, bytes[..|bytes| - 1]), bytes[|bytes| - 1])
  }

  lemma {:induction false} PutNothing(t: Screen)
    ensures PutAll(t, []) == t
  {
  }

  lemma {:induction false} PutMore(t: Screen, bytes: seq<Octet>, c: Octet)
    ensures PutAll(t, bytes + [c]) == Put(PutAll(t, bytes), c)
  {
    assert (bytes + [c])[..|bytes|] == bytes;
  }

  lemma {:induction false} PutJoins(t: Screen, a: seq<Octet>, b: seq<Octet>)
    ensures PutAll(t, a + b) == PutAll(PutAll(t, a), b)
    decreases |b|
  {
    hide *;
    if b == [] {
      PutNothing(PutAll(t, a));
      assert a + b == a;
    } else {
      var k := |b| - 1;
      PutJoins(t, a, b[..k]);
      PutMore(t, a + b[..k], b[k]);
      PutMore(PutAll(t, a), b[..k], b[k]);
      assert a + b[..k] + [b[k]] == a + b && b[..k] + [b[k]] == b;
    }
  }

  // ----- text

  function Painted(bytes: seq<Octet>, a: Attr): (r: seq<(Octet, Attr)>)
    ensures |r| == |bytes|
  {
    seq(|bytes|, i requires 0 <= i < |bytes| => (bytes[i], a))
  }

  lemma {:induction false} PaintedJoins(x: seq<Octet>, y: seq<Octet>, a: Attr)
    ensures Painted(x + y, a) == Painted(x, a) + Painted(y, a)
    ensures Painted([], a) == []
  {
  }

  /** Bytes without an escape are shown, each in the attributes that are on. */
  lemma {:induction false} TextIsShown(t: Screen, bytes: seq<Octet>)
    requires t.mode.Showing? && ESC !in bytes
    ensures PutAll(t, bytes) == t.(cells := t.cells + Painted(bytes, t.attr))
    decreases |bytes|
  {
    if bytes == [] {
      assert t.cells + Painted(bytes, t.attr) == t.cells;
    } else {
      var k := |bytes| - 1;
      TextIsShown(t, bytes[..k]);
      PaintedJoins(bytes[..k], [bytes[k]], t.attr);
      assert Painted([bytes[k]], t.attr) == [(bytes[k], t.attr)];
      assert bytes == bytes[..k] + [bytes[k]] && bytes[k] in bytes;
      assert t.cells + Painted(bytes[..k], t.attr) + [(bytes[k], t.attr)] == t.cells + Painted(bytes, t.attr);
    }
  }

  // ----- sequences

  /** The number that digits write. */
  function Value(x: Text): nat
    requires AllDigits(x)
  {
    if x == [] then 0 else 10 * Value(x[..|x| - 1]) + (x[|x| - 1] as int - '0' as int)
  }

  lemma {:induction false} DigitsAreRead(t: Screen, done: seq<nat>, x: Text)
    requires AllDigits(x) && t.mode == Numbers(done, 0)
    ensures PutAll(t, x) == t.(mode := Numbers(done, Value(x)))
    decreases |x|
  {
    if x != [] {
      DigitsAreRead(t, done, x[..|x| - 1]);
    }
  }

  function Sequence(code: Text): seq<Octet> {
    [ESC] + "[" + code + "m"
  }

  lemma {:induction false} SequenceOpens(t: Screen)
    requires t.mode.Showing?
    ensures PutAll(t, [ESC] + "[") == t.(mode := Numbers([], 0))
  {
    PutMore(t, [ESC], '[');
    PutMore(t, [], ESC);
    assert [] + [ESC] == [ESC] && "[" == ['['];
  }

  lemma {:induction false} SequenceEnds(t: Screen, u: Screen, code: Text)
    requires t.mode.Showing? && PutAll(t.(mode := Numbers([], 0)), code) == u && u.mode.Numbers?
    ensures PutAll(t, Sequence(code)) == Screen(u.cells, SelectAll(u.attr, u.mode.done + [u.mode.last]), Showing)
  {
    SequenceOpens(t);
    assert "m" == ['m'];
    PutJoins(t, [ESC] + "[", code);
    PutMore(t, [ESC] + "[" + code, 'm');
    hide PutAll, SelectAll;
  }

  lemma {:induction false} SelectsOne(a: Attr, n: nat)
    ensures SelectAll(a, [] + [n]) == Select(a, n)
  {
    hide Select;
    assert [n][..0] == [];
    assert [] + [n] == [n];
  }

  lemma {:induction false} SelectsTwo(a: Attr, n: nat, k: nat)
    ensures SelectAll(a, [n] + [k]) == Select(Select(a, n), k)
  {
    hide Select;
    var both := [n] + [k];
    SelectsOne(a, n);
    assert both[..1] == [] + [n] && both[1] == k;
  }

  /** A sequence of one number selects it. */
  lemma {:induction false} OneNumber(t: Screen, x: Text)
    requires t.mode.Showing? && AllDigits(x)
    ensures PutAll(t, Sequence(x)) == t.(attr := Select(t.attr, Value(x)))
  {
    hide *;
    DigitsAreRead(t.(mode := Numbers([], 0)), [], x);
    SequenceEnds(t, t.(mode := Numbers([], Value(x))), x);
    SelectsOne(t.attr, Value(x));
  }

  const SEMICOLON: Text := ";"

  lemma {:induction false} NextNumber(t: Screen, n: nat)
    requires t.mode == Numbers([], n)
    ensures PutAll(t, SEMICOLON) == t.(mode := Numbers([n], 0))
  {
    PutMore(t, [], ';');
    assert SEMICOLON == [';'] && [] + [';'] == [';'];
    assert [] + [n] == [n];
  }

  /** A sequence of two numbers selects one after the other. */
  lemma {:induction false} TwoNumbers(t: Screen, x: Text, y: Text)
    requires t.mode.Showing? && AllDigits(x) && AllDigits(y)
    ensures PutAll(t, Sequence(x + SEMICOLON + y)) == t.(attr := Select(Select(t.attr, Value(x)), Value(y)))
  {
    hide *;
    var open := t.(mode := Numbers([], 0));
    DigitsAreRead(open, [], x);
    NextNumber(t.(mode := Numbers([], Value(x))), Value(x));
    DigitsAreRead(t.(mode := Numbers([Value(x)], 0)), [Value(x)], y);
    PutJoins(open, x, SEMICOLON);
    PutJoins(open, x + SEMICOLON, y);
    SequenceEnds(t, t.(mode := Numbers([Value(x)], Value(y))), x + SEMICOLON + y);
    SelectsTwo(t.attr, Value(x), Value(y));
  }

  lemma {:induction false} OneDigit(c: Byte)
    requires '0' <= c <= '9'
    ensures AllDigits([c]) && Value([c]) == c as int - '0' as int
  {
    assert [c][..0] == [];
  }

  lemma {:induction false} TwoDigits(c: Byte, d: Byte)
    requires '0' <= c <= '9' && '0' <= d <= '9'
    ensures AllDigits([c, d]) && Value([c, d]) == 10 * (c as int - '0' as int) + (d as int - '0' as int)
  {
    OneDigit(c);
    assert [c, d][..1] == [c];
  }
}
