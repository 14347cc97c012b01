/** The JSON grammar as its standard writes it (RFC 8259, sections 2 to 7), next to the one the scanner is proved
    against. */
module JsonRfc {
  import opened CText
  import opened JsonScan
  import opened JsonGrammar

  // ----- white space (section 2)

  predicate White(t: Text) {
    forall k :: 0 <= k < |t| ==> t[k] == ' ' || t[k] == '\t' || t[k] == '\n' || t[k] == '\r'
  }

  lemma {:induction false} WhiteIsBlank(t: Text)
    requires White(t)
    ensures Blank(t)
  {
  }

  // ----- numbers (section 6) and literal names (section 3)

  predicate Digits(t: Text) {
    t != [] && AllDigits(t)
  }

  predicate Whole(t: Text) {
    Digits(t) && (t[0] == '0' ==> |t| == 1)
  }

  predicate Fraction(t: Text) {
    t == [] || (t[0] == '.' && Digits(t[1..]))
  }

  predicate Exponent(t: Text) {
    || t == []
    || ((t[0] == 'e' || t[0] == 'E') && |t| >= 2
        && Digits(if t[1] == '+' || t[1] == '-' then t[2..] else t[1..]))
  }

  /** The parts of a number. */
  datatype Number = Number(negative: bool, whole: Text, fraction: Text, exponent: Text) {
    predicate Valid() {
      Whole(whole) && Fraction(fraction) && Exponent(exponent)
    }

    function Written(): Text {
      (if negative then "-" else []) + whole + fraction + exponent
    }
  }

  const TRUE: Text := "true"
  const FALSE: Text := "false"
  const NULL: Text := "null"

  ghost predicate Scalar(t: Text) {
    t == TRUE || t == FALSE || t == NULL || exists n: Number :: n.Valid() && t == n.Written()
  }

  predicate AtomBytes(t: Text) {
    forall k :: 0 <= k < |t| ==> PlainByte(t[k]) && !EndsAtom(t[k])
  }

  lemma {:induction false} AtomBytesJoin(a: Text, b: Text)
    requires AtomBytes(a) && AtomBytes(b)
    ensures AtomBytes(a + b)
  {
    hide PlainByte, EndsAtom;
  }

  lemma {:induction false} DigitsAreAtom(t: Text)
    requires t == [] || Digits(t)
    ensures AtomBytes(t)
  {
  }

  lemma {:induction false} FractionIsAtom(t: Text)
    requires Fraction(t)
    ensures AtomBytes(t)
  {
    if t != [] {
      DigitsAreAtom(t[1..]);
      AtomBytesJoin([t[0]], t[1..]);
      assert [t[0]] + t[1..] == t;
    }
  }

  lemma {:induction false} ExponentIsAtom(t: Text)
    requires Exponent(t)
    ensures AtomBytes(t)
  {
    if t != [] {
      var n := if t[1] == '+' || t[1] == '-' then 2 else 1;
      DigitsAreAtom(t[n..]);
      AtomBytesJoin(t[..n], t[n..]);
      assert t[..n] + t[n..] == t;
    }
  }

  lemma {:induction false} NumberIsAtom(n: Number)
    requires n.Valid()
    ensures AtomText(n.Written())
  {
    DigitsAreAtom(n.whole);
    FractionIsAtom(n.fraction);
    ExponentIsAtom(n.exponent);
    hide AtomBytes, PlainByte, EndsAtom, Fraction, Exponent, Whole;
    var sign: Text := if n.negative then "-" else [];
    SignIsAtom(n.negative);
    AtomBytesJoin(sign, n.whole);
    AtomBytesJoin(sign + n.whole, n.fraction);
    AtomBytesJoin(sign + n.whole + n.fraction, n.exponent);
    BytesAreAtom(n.Written());
    assert Whole(n.whole);
    WholeIsSome(n.whole);
  }

  lemma {:induction false} WholeIsSome(t: Text)
    requires Whole(t)
    ensures t != []
  {
  }

  lemma {:induction false} SignIsAtom(negative: bool)
    ensures AtomBytes(if negative then "-" else [])
  {
    assert "-" == ['-'];
  }

  lemma {:induction false} BytesAreAtom(t: Text)
    requires AtomBytes(t)
    ensures t != [] ==> AtomText(t)
  {
    hide PlainByte, EndsAtom;
  }

  lemma {:induction false} NamesAreAtoms()
    ensures AtomText(TRUE) && AtomText(FALSE) && AtomText(NULL)
  {
    assert TRUE == ['t', 'r', 'u', 'e'] && FALSE == ['f', 'a', 'l', 's', 'e'] && NULL == ['n', 'u', 'l', 'l'];
  }

  lemma {:induction false} ScalarIsAtom(t: Text)
    requires Scalar(t)
    ensures AtomText(t)
  {
    hide AtomText, Number.Written, Number.Valid;
    NamesAreAtoms();
    if t != TRUE && t != FALSE && t != NULL {
      var n: Number :| n.Valid() && t == n.Written();
      NumberIsAtom(n);
    }
  }

  // ----- strings (section 7), as bytes

  predicate HexDigits(t: Text) {
    forall k :: 0 <= k < |t| ==> '0' <= t[k] <= '9' || 'a' <= t[k] <= 'f' || 'A' <= t[k] <= 'F'
  }

  predicate AfterBackslash(c: char) {
    c == '"' || c == '\\' || c == '/' || c == 'b' || c == 'f' || c == 'n' || c == 'r' || c == 't'
  }

  /** Bytes from 0x20 up that are no quote and no backslash, and escapes. */
  predicate Characters(t: Text)
    decreases |t|
  {
    if t == [] then true
    else if t[0] != '\\' then t[0] >= ' ' && t[0] != '"' && Characters(t[1..])
    else if |t| >= 6 && t[1] == 'u' then HexDigits(t[2..6]) && Characters(t[6..])
    else |t| >= 2 && AfterBackslash(t[1]) && Characters(t[2..])
  }

  lemma {:induction false} BodySkips(h: Text, t: Text)
    requires StringBody(t) && HexDigits(h)
    ensures StringBody(h + t)
  {
    if h == [] {
      assert h + t == t;
    } else {
      HexDigitsAfter(h);
      BodySkips(h[1..], t);
      assert (h + t)[1..] == h[1..] + t;
      hide HexDigits;
    }
  }

  lemma {:induction false} HexDigitsAfter(h: Text)
    requires HexDigits(h) && h != []
    ensures HexDigits(h[1..]) && h[0] != '\\' && h[0] != '"'
  {
  }

  lemma {:induction false} CharactersAreBody(t: Text)
    requires Characters(t)
    ensures StringBody(t)
    decreases |t|
  {
    if t != [] {
      if t[0] != '\\' {
        CharactersAreBody(t[1..]);
      } else if |t| >= 6 && t[1] == 'u' {
        CharactersAreBody(t[6..]);
        BodySkips(t[2..6], t[6..]);
        assert t[2..6] + t[6..] == t[2..];
      } else {
        CharactersAreBody(t[2..]);
      }
    }
  }

  // ----- values

  ghost predicate Standard(v: Json) {
    match v
    case Str(body) => Characters(body)
    case Atom(text) => Scalar(text)
    case Arr(items) => StandardItems(items)
    case Obj(members) => StandardMembers(members)
  }

  ghost predicate StandardItems(items: Items) {
    match items
    case NoItems(pad) => White(pad)
    case LastItem(pre, v, post) => White(pre) && Standard(v) && White(post)
    case MoreItems(pre, v, post, rest) =>
      White(pre) && Standard(v) && White(post) && !rest.NoItems? && StandardItems(rest)
  }

  ghost predicate StandardMember(m: Member) {
    && White(m.pre) && Characters(m.key) && White(m.mid) && White(m.lead)
    && Standard(m.v) && White(m.post)
  }

  ghost predicate StandardMembers(ms: Members) {
    match ms
    case NoMembers(pad) => White(pad)
    case LastMember(m) => StandardMember(m)
    case MoreMembers(m, rest) => StandardMember(m) && !rest.NoMembers? && StandardMembers(rest)
  }

  /** Every JSON value of the standard is one that the theorems about the scanner are about. */
  lemma {:induction false} StandardIsWellFormed(v: Json)
    requires Standard(v)
    ensures WellFormed(v)
  {
    hide White, Blank, Characters, StringBody, Scalar, AtomText;
    match v
    case Str(body) =>
      CharactersAreBody(body);
    case Atom(text) =>
      ScalarIsAtom(text);
    case Arr(items) =>
      StandardItemsAreWellFormed(items);
    case Obj(members) =>
      StandardMembersAreWellFormed(members);
  }

  lemma {:induction false} StandardItemsAreWellFormed(items: Items)
    requires StandardItems(items)
    ensures WellFormedItems(items)
  {
    hide White, Blank, Characters, StringBody, Scalar, AtomText, Standard, WellFormed;
    match items
    case NoItems(pad) =>
      WhiteIsBlank(pad);
    case LastItem(pre, v, post) =>
      WhiteIsBlank(pre);
      WhiteIsBlank(post);
      StandardIsWellFormed(v);
    case MoreItems(pre, v, post, rest) =>
      WhiteIsBlank(pre);
      WhiteIsBlank(post);
      StandardIsWellFormed(v);
      StandardItemsAreWellFormed(rest);
  }

  lemma {:induction false} StandardMemberIsWellFormed(m: Member)
    requires StandardMember(m)
    ensures WellFormedMember(m)
  {
    hide White, Blank, Characters, StringBody, Scalar, AtomText, Standard, WellFormed;
    WhiteIsBlank(m.pre);
    WhiteIsBlank(m.mid);
    WhiteIsBlank(m.lead);
    WhiteIsBlank(m.post);
    CharactersAreBody(m.key);
    StandardIsWellFormed(m.v);
  }

  lemma {:induction false} StandardMembersAreWellFormed(ms: Members)
    requires StandardMembers(ms)
    ensures WellFormedMembers(ms)
  {
    hide White, Blank, StandardMember, WellFormedMember;
    match ms
    case NoMembers(pad) =>
      WhiteIsBlank(pad);
    case LastMember(m) =>
      StandardMemberIsWellFormed(m);
    case MoreMembers(m, rest) =>
      StandardMemberIsWellFormed(m);
      StandardMembersAreWellFormed(rest);
  }
}
