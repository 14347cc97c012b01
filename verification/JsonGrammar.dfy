/** JSON texts as syntax trees (RFC 8259), and what the scanners do on a text rendered from one. */
module JsonGrammar {
  import opened Options
  import opened CText
  import opened JsonScan

  /** A value as written: the raw bytes between the quotes of a string, the bytes of a number or of
      true, false, null, and every stretch of white space. */
  datatype Json =
    | Str(body: Text)
    | Atom(text: Text)
    | Arr(items: Items)
    | Obj(members: Members)

  datatype Items =
    | NoItems(pad: Text)
    | LastItem(pre: Text, v: Json, post: Text)
    | MoreItems(pre: Text, v: Json, post: Text, rest: Items)

  /** pre "key" mid : lead value post */
  datatype Member = Member(pre: Text, key: Text, mid: Text, lead: Text, v: Json, post: Text)

  datatype Members =
    | NoMembers(pad: Text)
    | LastMember(m: Member)
    | MoreMembers(m: Member, rest: Members)

  const QUOTE: Text := "\""
  const COLON: Text := ":"
  const COMMA: Text := ","

  function Render(v: Json): Text {
    match v
    case Str(body) => QUOTE + body + QUOTE
    case Atom(text) => text
    case Arr(items) => "[" + RenderItems(items) + "]"
    case Obj(members) => "{" + RenderMembers(members) + "}"
  }

  function RenderItems(items: Items): Text {
    match items
    case NoItems(pad) => pad
    case LastItem(pre, v, post) => pre + Render(v) + post
    case MoreItems(pre, v, post, rest) => pre + Render(v) + post + COMMA + RenderItems(rest)
  }

  function RenderName(m: Member): Text {
    QUOTE + m.key + QUOTE + m.mid + COLON + m.lead
  }

  function RenderMember(m: Member): Text {
    m.pre + RenderName(m) + Render(m.v) + m.post
  }

  function RenderMembers(ms: Members): Text {
    match ms
    case NoMembers(pad) => pad
    case LastMember(m) => RenderMember(m)
    case MoreMembers(m, rest) => RenderMember(m) + COMMA + RenderMembers(rest)
  }

  // ----- well-formedness

  predicate Blank(t: Text) {
    forall k :: 0 <= k < |t| ==> IsSpace(t[k])
  }

  /** No quote that is not escaped, and no backslash without a byte after it. */
  predicate StringBody(t: Text) {
    if t == [] then true
    else if t[0] == '\\' then |t| >= 2 && StringBody(t[2..])
    else t[0] != '"' && StringBody(t[1..])
  }

  predicate PlainByte(c: char) {
    c != '"' && !IsOpen(c) && !IsClose(c)
  }

  predicate AtomText(t: Text) {
    t != [] && forall k :: 0 <= k < |t| ==> PlainByte(t[k]) && !EndsAtom(t[k])
  }

  predicate WellFormed(v: Json) {
    match v
    case Str(body) => StringBody(body)
    case Atom(text) => AtomText(text)
    case Arr(items) => WellFormedItems(items)
    case Obj(members) => WellFormedMembers(members)
  }

  predicate WellFormedItems(items: Items) {
    match items
    case NoItems(pad) => Blank(pad)
    case LastItem(pre, v, post) => Blank(pre) && WellFormed(v) && Blank(post)
    case MoreItems(pre, v, post, rest) =>
      Blank(pre) && WellFormed(v) && Blank(post) && !rest.NoItems? && WellFormedItems(rest)
  }

  predicate WellFormedMember(m: Member) {
    && Blank(m.pre) && StringBody(m.key) && Blank(m.mid) && Blank(m.lead)
    && WellFormed(m.v) && Blank(m.post)
  }

  predicate WellFormedMembers(ms: Members) {
    match ms
    case NoMembers(pad) => Blank(pad)
    case LastMember(m) => WellFormedMember(m)
    case MoreMembers(m, rest) => WellFormedMember(m) && !rest.NoMembers? && WellFormedMembers(rest)
  }

  /** A member written without white space. */
  function Bare(key: Text, v: Json): Member {
    Member([], key, [], [], v, [])
  }

  lemma {:induction false} BareRenders(key: Text, v: Json)
    ensures RenderMember(Bare(key, v)) == QUOTE + key + QUOTE + COLON + Render(v)
    ensures RenderName(Bare(key, v)) == QUOTE + key + QUOTE + COLON
  {
    hide Render;
  }

  lemma {:induction false} BareWellFormed(key: Text, v: Json)
    requires StringBody(key) && WellFormed(v)
    ensures WellFormedMember(Bare(key, v))
  {
    hide StringBody, WellFormed;
  }

  // ----- a text at a place in another

  /** x stands in s at index i. */
  predicate At(s: Text, i: nat, x: Text) {
    i + |x| <= |s| && s[i..i + |x|] == x
  }

  lemma {:induction false} AtSplits(s: Text, i: nat, a: Text, b: Text)
    ensures At(s, i, a + b) <==> At(s, i, a) && At(s, i + |a|, b)
  {
    if At(s, i, a + b) {
      assert s[i..i + |a|] == (a + b)[..|a|];
      assert s[i + |a|..i + |a| + |b|] == (a + b)[|a|..];
    }
    if At(s, i, a) && At(s, i + |a|, b) {
      assert s[i..i + |a + b|] == s[i..i + |a|] + s[i + |a|..i + |a| + |b|];
    }
  }

  lemma {:induction false} AtByte(s: Text, i: nat, x: Text, k: nat)
    requires At(s, i, x) && k < |x|
    ensures i + k < |s| && s[i + k] == x[k]
  {
    assert s[i..i + |x|][k] == s[i + k];
  }

  lemma {:induction false} AtTail(s: Text, i: nat, x: Text, k: nat)
    requires At(s, i, x) && k <= |x|
    ensures At(s, i + k, x[k..])
  {
    assert x == x[..k] + x[k..];
    AtSplits(s, i, x[..k], x[k..]);
  }

  // ----- the simple scanners

  lemma {:induction false} SkipsBlank(s: Text, i: nat, pad: Text)
    requires At(s, i, pad) && Blank(pad)
    requires i + |pad| < |s| ==> !IsSpace(s[i + |pad|])
    ensures Skip(s, i) == i + |pad|
    decreases |pad|
  {
    if pad != [] {
      AtByte(s, i, pad, 0);
      AtTail(s, i, pad, 1);
      SkipsBlank(s, i + 1, pad[1..]);
    }
  }

  lemma {:induction false} SkipsBody(s: Text, i: nat, body: Text)
    requires At(s, i, body) && StringBody(body)
    requires i + |body| < |s| && s[i + |body|] == '"'
    ensures SkipString(s, i) == i + |body|
    decreases |body|
  {
    if body != [] {
      AtByte(s, i, body, 0);
      var k := if body[0] == '\\' then 2 else 1;
      AtTail(s, i, body, k);
      SkipsBody(s, i + k, body[k..]);
    }
  }

  lemma {:induction false} SkipsAtom(s: Text, i: nat, text: Text)
    requires At(s, i, text) && forall k :: 0 <= k < |text| ==> !EndsAtom(text[k])
    requires i + |text| < |s| ==> EndsAtom(s[i + |text|])
    ensures SkipAtom(s, i) == i + |text|
    decreases |text|
  {
    if text != [] {
      AtByte(s, i, text, 0);
      AtTail(s, i, text, 1);
      SkipsAtom(s, i + 1, text[1..]);
    }
  }

  // ----- the depth counter against the grammar

  /** The counter passes over bytes that are neither quotes nor brackets without changing depth. */
  lemma {:induction false} NestPlain(s: Text, i: nat, x: Text, d: nat, sq: bool)
    requires At(s, i, x) && d > 0 && forall k :: 0 <= k < |x| ==> PlainByte(x[k])
    ensures Count(s, i, d, sq) == Count(s, i + |x|, d, sq)
    decreases |x|
  {
    if x != [] {
      AtByte(s, i, x, 0);
      AtTail(s, i, x, 1);
      NestPlain(s, i + 1, x[1..], d, sq);
    }
  }

  lemma {:induction false} NestBlank(s: Text, i: nat, pad: Text, d: nat, sq: bool)
    requires At(s, i, pad) && d > 0 && Blank(pad)
    ensures Count(s, i, d, sq) == Count(s, i + |pad|, d, sq)
  {
    NestPlain(s, i, pad, d, sq);
  }

  lemma {:induction false} NestByte(s: Text, i: nat, c: Text, d: nat, sq: bool)
    requires At(s, i, c) && d > 0 && |c| == 1 && PlainByte(c[0])
    ensures Count(s, i, d, sq) == Count(s, i + 1, d, sq)
  {
    NestPlain(s, i, c, d, sq);
  }

  lemma {:induction false} NestString(s: Text, i: nat, body: Text, d: nat, sq: bool)
    requires At(s, i, QUOTE + body + QUOTE) && StringBody(body) && d > 0
    ensures Count(s, i, d, sq) == Count(s, i + |body| + 2, d, sq)
  {
    AtSplits(s, i, QUOTE + body, QUOTE);
    AtSplits(s, i, QUOTE, body);
    AtByte(s, i, QUOTE, 0);
    AtByte(s, i + 1 + |body|, QUOTE, 0);
    SkipsBody(s, i + 1, body);
  }

  lemma {:induction false} AtBracketed(s: Text, i: nat, open: Text, inner: Text, close: Text)
    requires At(s, i, open + inner + close) && |open| == |close| == 1
    ensures i + |inner| + 2 <= |s| && At(s, i + 1, inner)
    ensures s[i] == open[0] && s[i + 1 + |inner|] == close[0]
  {
    AtSplits(s, i, open + inner, close);
    AtSplits(s, i, open, inner);
    AtByte(s, i, open, 0);
    AtByte(s, i + 1 + |inner|, close, 0);
  }

  /** Brackets of one kind around a stretch that leaves the counter where it was. */
  lemma {:induction false} NestBrackets(s: Text, i: nat, j: nat, d: nat, sq: bool)
    requires i + 1 <= j < |s| && ((s[i] == '{' && s[j] == '}') || (s[i] == '[' && s[j] == ']')) && d > 0
    requires var inside := if s[i] == '{' || sq then d + 1 else d;
             Count(s, i + 1, inside, sq) == Count(s, j, inside, sq)
    ensures Count(s, i, d, sq) == Count(s, j + 1, d, sq)
  {
  }

  /** A rendered value leaves the counter at the depth it came with. */
  lemma {:induction false} NestValue(s: Text, i: nat, v: Json, d: nat, sq: bool)
    requires At(s, i, Render(v)) && WellFormed(v) && d > 0
    ensures Count(s, i, d, sq) == Count(s, i + |Render(v)|, d, sq)
    decreases v, 0
  {
    hide At, Count, StringBody, RenderItems, RenderMembers;
    match v
    case Str(body) =>
      NestString(s, i, body, d, sq);
    case Atom(text) =>
      NestPlain(s, i, text, d, sq);
    case Arr(items) =>
      AtBracketed(s, i, "[", RenderItems(items), "]");
      NestItems(s, i + 1, items, if sq then d + 1 else d, sq);
      NestBrackets(s, i, i + 1 + |RenderItems(items)|, d, sq);
    case Obj(members) =>
      AtBracketed(s, i, "{", RenderMembers(members), "}");
      NestMembers(s, i + 1, members, d + 1, sq);
      NestBrackets(s, i, i + 1 + |RenderMembers(members)|, d, sq);
  }

  lemma {:induction false} NestPadded(s: Text, i: nat, pre: Text, v: Json, post: Text, d: nat, sq: bool)
    requires At(s, i, pre + Render(v) + post) && Blank(pre) && WellFormed(v) && Blank(post) && d > 0
    ensures Count(s, i, d, sq) == Count(s, i + |pre + Render(v) + post|, d, sq)
    decreases v, 1
  {
    hide At, Count, Render, Blank, WellFormed;
    AtSplits(s, i, pre + Render(v), post);
    AtSplits(s, i, pre, Render(v));
    NestBlank(s, i, pre, d, sq);
    NestValue(s, i + |pre|, v, d, sq);
    NestBlank(s, i + |pre + Render(v)|, post, d, sq);
  }

  lemma {:induction false} NestItems(s: Text, i: nat, items: Items, d: nat, sq: bool)
    requires At(s, i, RenderItems(items)) && WellFormedItems(items) && d > 0
    ensures Count(s, i, d, sq) == Count(s, i + |RenderItems(items)|, d, sq)
    decreases items, 0
  {
    hide At, Count, Render, Blank, WellFormed;
    match items
    case NoItems(pad) =>
      NestBlank(s, i, pad, d, sq);
    case LastItem(pre, v, post) =>
      NestPadded(s, i, pre, v, post, d, sq);
    case MoreItems(pre, v, post, rest) =>
      var item := pre + Render(v) + post;
      AtSplits(s, i, item + COMMA, RenderItems(rest));
      AtSplits(s, i, item, COMMA);
      NestPadded(s, i, pre, v, post, d, sq);
      NestByte(s, i + |item|, COMMA, d, sq);
      NestItems(s, i + |item| + 1, rest, d, sq);
  }

  /** The parts of a rendered name, up to the value. */
  lemma {:induction false} AtName(s: Text, i: nat, m: Member)
    requires At(s, i, RenderName(m))
    ensures At(s, i, QUOTE + m.key + QUOTE) && At(s, i + |m.key| + 2, m.mid)
    ensures At(s, i + |m.key| + 2 + |m.mid|, COLON) && At(s, i + |m.key| + 3 + |m.mid|, m.lead)
    ensures |RenderName(m)| == |m.key| + 3 + |m.mid| + |m.lead|
  {
    hide At;
    var name := QUOTE + m.key + QUOTE;
    AtSplits(s, i, name + m.mid + COLON, m.lead);
    AtSplits(s, i, name + m.mid, COLON);
    AtSplits(s, i, name, m.mid);
  }

  lemma {:induction false} NestColon(s: Text, i: nat, j: nat, k: nat, mid: Text, lead: Text, d: nat, sq: bool)
    requires At(s, i, mid) && j == i + |mid| && At(s, j, COLON) && k == j + 1 && At(s, k, lead)
    requires Blank(mid) && Blank(lead) && d > 0
    ensures Count(s, i, d, sq) == Count(s, k + |lead|, d, sq)
  {
    hide At, Count, Blank;
    NestBlank(s, i, mid, d, sq);
    NestByte(s, j, COLON, d, sq);
    NestBlank(s, k, lead, d, sq);
  }

  lemma {:induction false} NestName(s: Text, i: nat, m: Member, d: nat, sq: bool)
    requires At(s, i, RenderName(m)) && StringBody(m.key) && Blank(m.mid) && Blank(m.lead) && d > 0
    ensures Count(s, i, d, sq) == Count(s, i + |RenderName(m)|, d, sq)
  {
    hide At, Count, StringBody, RenderName, Blank;
    AtName(s, i, m);
    NestString(s, i, m.key, d, sq);
    var k := i + |m.key| + 2;
    NestColon(s, k, k + |m.mid|, k + |m.mid| + 1, m.mid, m.lead, d, sq);
  }

  lemma {:induction false} AtMember(s: Text, i: nat, m: Member)
    requires At(s, i, RenderMember(m))
    ensures At(s, i, m.pre) && At(s, i + |m.pre|, RenderName(m))
    ensures At(s, i + |m.pre| + |RenderName(m)|, Render(m.v))
    ensures At(s, i + |m.pre| + |RenderName(m)| + |Render(m.v)|, m.post)
    ensures |RenderMember(m)| == |m.pre| + |RenderName(m)| + |Render(m.v)| + |m.post|
  {
    hide At, RenderName, Render;
    AtSplits(s, i, m.pre + RenderName(m) + Render(m.v), m.post);
    AtSplits(s, i, m.pre + RenderName(m), Render(m.v));
    AtSplits(s, i, m.pre, RenderName(m));
  }

  lemma {:induction false} MemberParts(m: Member)
    requires WellFormedMember(m)
    ensures Blank(m.pre) && StringBody(m.key) && Blank(m.mid) && Blank(m.lead) && WellFormed(m.v)
    ensures Blank(m.post)
  {
  }

  lemma {:induction false} NestMember(s: Text, i: nat, m: Member, d: nat, sq: bool)
    requires At(s, i, RenderMember(m)) && WellFormedMember(m) && d > 0
    ensures Count(s, i, d, sq) == Count(s, i + |RenderMember(m)|, d, sq)
    decreases m, 0
  {
    hide *;
    AtMember(s, i, m);
    MemberParts(m);
    var n := i + |m.pre|;
    var v := n + |RenderName(m)|;
    var e := v + |Render(m.v)|;
    NestBlank(s, i, m.pre, d, sq);
    NestName(s, n, m, d, sq);
    NestValue(s, v, m.v, d, sq);
    NestBlank(s, e, m.post, d, sq);
  }

  lemma {:induction false} NestMembers(s: Text, i: nat, ms: Members, d: nat, sq: bool)
    requires At(s, i, RenderMembers(ms)) && WellFormedMembers(ms) && d > 0
    ensures Count(s, i, d, sq) == Count(s, i + |RenderMembers(ms)|, d, sq)
    decreases ms, 0
  {
    hide At, Count, RenderMember, Blank, WellFormedMember;
    match ms
    case NoMembers(pad) =>
      NestBlank(s, i, pad, d, sq);
    case LastMember(m) =>
      NestMember(s, i, m, d, sq);
    case MoreMembers(m, rest) =>
      AtSplits(s, i, RenderMember(m) + COMMA, RenderMembers(rest));
      AtSplits(s, i, RenderMember(m), COMMA);
      NestMember(s, i, m, d, sq);
      NestByte(s, i + |RenderMember(m)|, COMMA, d, sq);
      NestMembers(s, i + |RenderMember(m)| + 1, rest, d, sq);
  }

  // ----- the skipper stops at the end of the value

  /** The text ends at i, or goes on with a byte that cannot continue a number or a word. */
  predicate Delimited(s: Text, i: nat) {
    i <= |s| && (i < |s| ==> s[i] == ',' || s[i] == '}' || s[i] == ']' || IsSpace(s[i]))
  }

  lemma {:induction false} FirstByte(v: Json)
    requires WellFormed(v)
    ensures |Render(v)| > 0 && !IsSpace(Render(v)[0])
    ensures (Render(v)[0] == '"' <==> v.Str?) && (IsOpen(Render(v)[0]) <==> v.Arr? || v.Obj?)
    ensures Render(v)[0] == '{' <==> v.Obj?
  {
  }

  lemma {:induction false} NestCloses(s: Text, i: nat, j: nat, sq: bool)
    requires i <= j < |s| && Closes(s[j], sq) && Count(s, i, 1, sq) == Count(s, j, 1, sq)
    ensures Count(s, i, 1, sq) == (j + 1, 0)
  {
    assert Count(s, j + 1, 0, sq) == (j + 1, 0);
  }

  /** A value in brackets is skipped to its closing bracket. */
  lemma {:induction false} SkipsBrackets(s: Text, i: nat, j: nat)
    requires i + 1 <= j < |s| && IsOpen(s[i]) && IsClose(s[j]) && Count(s, i + 1, 1, true) == Count(s, j, 1, true)
    ensures SkipValue(s, i) == j + 1
  {
    NestCloses(s, i + 1, j, true);
    hide Count, SkipString, SkipAtom;
    assert Skip(s, i) == i;
  }

  lemma {:induction false} SkipsStringValue(s: Text, i: nat, body: Text)
    requires At(s, i, QUOTE + body + QUOTE) && StringBody(body)
    ensures SkipValue(s, i) == i + |body| + 2
  {
    AtBracketed(s, i, QUOTE, body, QUOTE);
    SkipsBody(s, i + 1, body);
    hide Count, SkipString, SkipAtom, At, StringBody;
    assert Skip(s, i) == i;
  }

  lemma {:induction false} SkipsAtomValue(s: Text, i: nat, text: Text)
    requires At(s, i, text) && AtomText(text) && Delimited(s, i + |text|)
    ensures SkipValue(s, i) == i + |text|
  {
    AtByte(s, i, text, 0);
    SkipsAtom(s, i, text);
    hide Count, SkipString, SkipAtom, At;
    assert Skip(s, i) == i;
  }

  /** On every well-formed value, followed by a delimiter, the skipper stops exactly at its end. */
  lemma {:induction false} SkipsExactlyTheValue(s: Text, i: nat, v: Json)
    requires At(s, i, Render(v)) && WellFormed(v) && Delimited(s, i + |Render(v)|)
    ensures SkipValue(s, i) == i + |Render(v)|
  {
    hide SkipValue, At, StringBody, AtomText, Delimited, RenderItems, RenderMembers, WellFormedItems,
         WellFormedMembers, Count;
    match v
    case Str(body) =>
      SkipsStringValue(s, i, body);
    case Atom(text) =>
      SkipsAtomValue(s, i, text);
    case Arr(items) =>
      AtBracketed(s, i, "[", RenderItems(items), "]");
      NestItems(s, i + 1, items, 1, true);
      SkipsBrackets(s, i, i + 1 + |RenderItems(items)|);
    case Obj(members) =>
      AtBracketed(s, i, "{", RenderMembers(members), "}");
      NestMembers(s, i + 1, members, 1, true);
      SkipsBrackets(s, i, i + 1 + |RenderMembers(members)|);
  }

  // ----- lookup finds the first member of that name

  /** The first member named key, and where its value begins in the rendered members. */
  function Lookup(ms: Members, key: Text): Option<(Json, nat)> {
    match ms
    case NoMembers(_) => None
    case LastMember(m) => LookupIn(m, key)
    case MoreMembers(m, rest) =>
      if m.key == key then LookupIn(m, key)
      else match Lookup(rest, key)
           case None => None
           case Some((v, at)) => Some((v, |RenderMember(m)| + 1 + at))
  }

  function LookupIn(m: Member, key: Text): Option<(Json, nat)> {
    if m.key == key then Some((m.v, |m.pre| + |RenderName(m)|)) else None
  }

  /** From the closing quote of a name at q, over white space and the colon at c, to the value at v. */
  lemma {:induction false} ColonTurn(s: Text, q: nat, mid: Text, c: nat, lead: Text, v: nat)
    requires q < c < v <= |s| && s[q] == '"' && s[c] == ':' && (v < |s| ==> !IsSpace(s[v]))
    requires At(s, q + 1, mid) && c == q + 1 + |mid| && At(s, c + 1, lead) && v == c + 1 + |lead|
    requires Blank(mid) && Blank(lead)
    ensures ValueAfter(s, q) == v
  {
    QuoteIsNotSpace();
    hide At, Blank, Skip, IsSpace;
    SkipsBlank(s, q + 1, mid);
    SkipsBlank(s, c + 1, lead);
  }

  lemma {:induction false} NameTurn(s: Text, at: nat, m: Member)
    requires At(s, at, RenderName(m)) && WellFormedMember(m)
    requires At(s, at + |RenderName(m)|, Render(m.v))
    ensures ValueAfter(s, at + |m.key| + 1) == at + |RenderName(m)|
  {
    var q := at + |m.key| + 1;
    var c := q + 1 + |m.mid|;
    var v := c + 1 + |m.lead|;
    hide *;
    Marks();
    MemberParts(m);
    FirstByte(m.v);
    AtName(s, at, m);
    AtBracketed(s, at, QUOTE, m.key, QUOTE);
    AtByte(s, c, COLON, 0);
    AtByte(s, v, Render(m.v), 0);
    ColonTurn(s, q, m.mid, c, m.lead, v);
  }

  /** A rendered name: the quotes, what is between them, and where the value begins. */
  lemma {:induction false} NameFront(s: Text, at: nat, m: Member)
    requires At(s, at, RenderName(m)) && WellFormedMember(m)
    requires At(s, at + |RenderName(m)|, Render(m.v))
    ensures var q := at + |m.key| + 1;
            && q < |s| && s[at] == '"' && SkipString(s, at + 1) == q
            && s[at + 1..q] == m.key && ValueAfter(s, q) == at + |RenderName(m)|
  {
    hide *;
    Marks();
    AtName(s, at, m);
    MemberParts(m);
    NameTurn(s, at, m);
    AtBracketed(s, at, QUOTE, m.key, QUOTE);
    AtKey(s, at + 1, m.key);
    SkipsBody(s, at + 1, m.key);
  }

  /** The front of a member: where its name and its value are found. */
  lemma {:induction false} MemberFront(s: Text, i: nat, m: Member)
    requires At(s, i, RenderMember(m)) && WellFormedMember(m)
    ensures var at := i + |m.pre|; var q := at + |m.key| + 1;
            && q < |s| && Skip(s, i) == at && s[at] == '"' && SkipString(s, at + 1) == q
            && s[at + 1..q] == m.key && ValueAfter(s, q) == at + |RenderName(m)|
            && At(s, at + |RenderName(m)|, Render(m.v))
  {
    hide At, RenderMember, RenderName, Render, WellFormed, StringBody, Blank, ValueAfter, Skip, SkipString;
    AtMember(s, i, m);
    NameFront(s, i + |m.pre|, m);
    QuoteIsNotSpace();
    MemberParts(m);
    SkipsBlank(s, i, m.pre);
  }

  lemma {:induction false} Marks()
    ensures QUOTE == ['"'] && COLON == [':'] && COMMA == [',']
  {
  }

  lemma {:induction false} QuoteIsNotSpace()
    ensures !IsSpace('"') && !IsSpace('{') && !IsSpace('}') && !IsSpace(',') && !IsSpace(':')
  {
  }

  /** The back of a member that a comma or a brace follows: the end of its value, and its own end. */
  lemma {:induction false} MemberBack(s: Text, i: nat, m: Member)
    requires At(s, i, RenderMember(m)) && WellFormedMember(m)
    requires i + |RenderMember(m)| < |s|
    requires s[i + |RenderMember(m)|] == ',' || s[i + |RenderMember(m)|] == '}'
    ensures var v := i + |m.pre| + |RenderName(m)|;
            && v + |Render(m.v)| <= |s|
            && SkipValue(s, v) == v + |Render(m.v)| && Skip(s, v + |Render(m.v)|) == i + |RenderMember(m)|
            && Delimited(s, v + |Render(m.v)|)
  {
    hide *;
    AtMember(s, i, m);
    MemberParts(m);
    QuoteIsNotSpace();
    var v := i + |m.pre| + |RenderName(m)|;
    PostDelimits(s, v + |Render(m.v)|, m.post);
    AtLength(s, v, Render(m.v));
    SkipsExactlyTheValue(s, v, m.v);
    SkipsBlank(s, v + |Render(m.v)|, m.post);
  }

  lemma {:induction false} AtLength(s: Text, i: nat, x: Text)
    requires At(s, i, x)
    ensures i + |x| <= |s|
  {
  }

  lemma {:induction false} NextAfterBack(s: Text, v: nat, e: nat)
    requires v <= |s| && Skip(s, SkipValue(s, v)) == e
    ensures e <= |s| && NextMember(s, v) == Past(s, e, ',')
  {
  }

  /** One turn of the member loop on a rendered member that a comma or a brace follows. */
  lemma {:induction false} MemberTurn(s: Text, i: nat, m: Member, key: Text)
    requires At(s, i, RenderMember(m)) && WellFormedMember(m)
    requires i + |RenderMember(m)| < |s|
    requires s[i + |RenderMember(m)|] == ',' || s[i + |RenderMember(m)|] == '}'
    ensures FindMember(s, i, key) ==
              if m.key == key then Some(i + |m.pre| + |RenderName(m)|)
              else FindMember(s, Past(s, i + |RenderMember(m)|, ','), key)
  {
    hide *;
    MemberFront(s, i, m);
    MemberBack(s, i, m);
    NextAfterBack(s, i + |m.pre| + |RenderName(m)|, i + |RenderMember(m)|);
    FindMemberTurn(s, i, key);
  }

  lemma {:induction false} AtKey(s: Text, i: nat, key: Text)
    requires At(s, i, key)
    ensures s[i..i + |key|] == key
  {
  }

  lemma {:induction false} PostDelimits(s: Text, i: nat, post: Text)
    requires At(s, i, post) && Blank(post) && i + |post| < |s|
    requires s[i + |post|] == ',' || s[i + |post|] == '}'
    ensures Delimited(s, i)
  {
    if post != [] {
      AtByte(s, i, post, 0);
    }
  }

  /** What lookup should make of rendered members that begin at i. */
  ghost predicate FoundAs(s: Text, i: nat, found: Option<nat>, expected: Option<(Json, nat)>) {
    match expected
    case None => found == None
    case Some((v, at)) =>
      && found == Some(i + at) && At(s, i + at, Render(v)) && WellFormed(v)
      && Delimited(s, i + at + |Render(v)|)
  }

  lemma {:induction false} MemberValue(m: Member)
    requires WellFormedMember(m)
    ensures WellFormed(m.v)
  {
  }

  /** The name asked for is found in this member. */
  lemma {:induction false} FindsThis(s: Text, i: nat, m: Member)
    requires At(s, i, RenderMember(m)) && WellFormedMember(m)
    requires i + |RenderMember(m)| < |s|
    requires s[i + |RenderMember(m)|] == ',' || s[i + |RenderMember(m)|] == '}'
    ensures FoundAs(s, i, FindMember(s, i, m.key), LookupIn(m, m.key))
  {
    hide FindMember, RenderMember, RenderName, Render, WellFormedMember, WellFormed, At, Skip, SkipString,
         SkipValue, ValueAfter, Delimited;
    MemberTurn(s, i, m, m.key);
    MemberFront(s, i, m);
    MemberBack(s, i, m);
    MemberValue(m);
  }

  lemma {:induction false} BraceEndsMembers(s: Text, i: nat, key: Text)
    requires i < |s| && s[i] == '}'
    ensures FindMember(s, i, key) == None && Past(s, i, ',') == i
  {
    assert Skip(s, i) == i;
  }

  lemma {:induction false} FindsHere(s: Text, i: nat, m: Member, key: Text)
    requires At(s, i, RenderMember(m)) && WellFormedMember(m)
    requires i + |RenderMember(m)| < |s| && s[i + |RenderMember(m)|] == '}'
    ensures FoundAs(s, i, FindMember(s, i, key), LookupIn(m, key))
  {
    hide RenderMember, WellFormedMember, At;
    if m.key == key {
      FindsThis(s, i, m);
    } else {
      MemberTurn(s, i, m, key);
      BraceEndsMembers(s, i + |RenderMember(m)|, key);
      hide FindMember;
    }
  }

  lemma {:induction false} FindsLater(s: Text, i: nat, m: Member, rest: Members, key: Text)
    requires At(s, i, RenderMember(m)) && WellFormedMember(m)
    requires i + |RenderMember(m)| < |s| && s[i + |RenderMember(m)|] == ','
    requires var next := i + |RenderMember(m)| + 1;
             FoundAs(s, next, FindMember(s, next, key), Lookup(rest, key))
    ensures FoundAs(s, i, FindMember(s, i, key), Lookup(MoreMembers(m, rest), key))
  {
    hide FindMember, RenderMember, RenderName, Render, WellFormedMember, WellFormed, At, Delimited;
    if m.key == key {
      FindsThis(s, i, m);
    } else {
      MemberTurn(s, i, m, key);
    }
  }

  lemma {:induction false} FindsNone(s: Text, i: nat, pad: Text, key: Text)
    requires At(s, i, pad + "}") && Blank(pad)
    ensures FoundAs(s, i, FindMember(s, i, key), Lookup(NoMembers(pad), key))
  {
    hide FindMember, Lookup, At, Blank, Skip, IsSpace, QUOTE;
    AtSplits(s, i, pad, "}");
    AtByte(s, i + |pad|, "}", 0);
    QuoteIsNotSpace();
    SkipsBlank(s, i, pad);
    NoNameHere(s, i, key);
    NothingNamed(pad, key);
  }

  lemma {:induction false} NoNameHere(s: Text, i: nat, key: Text)
    requires i <= |s| && Skip(s, i) < |s| && s[Skip(s, i)] != '"'
    ensures FindMember(s, i, key) == None
  {
    hide Skip;
  }

  lemma {:induction false} NothingNamed(pad: Text, key: Text)
    ensures Lookup(NoMembers(pad), key) == None
  {
  }

  lemma {:induction false} FindsInLast(s: Text, i: nat, m: Member, key: Text)
    requires At(s, i, RenderMember(m) + "}") && WellFormedMember(m)
    ensures FoundAs(s, i, FindMember(s, i, key), Lookup(LastMember(m), key))
  {
    AtSplits(s, i, RenderMember(m), "}");
    AtByte(s, i + |RenderMember(m)|, "}", 0);
    hide RenderMember, WellFormedMember, At, FindMember, FoundAs;
    FindsHere(s, i, m, key);
  }

  lemma {:induction false} FindsFirstMember(s: Text, i: nat, ms: Members, key: Text)
    requires At(s, i, RenderMembers(ms) + "}") && WellFormedMembers(ms)
    ensures FoundAs(s, i, FindMember(s, i, key), Lookup(ms, key))
    decreases ms
  {
    hide FoundAs, FindMember, Lookup, At, RenderMember, Blank, WellFormedMember;
    match ms
    case NoMembers(pad) =>
      FindsNone(s, i, pad, key);
    case LastMember(m) =>
      FindsInLast(s, i, m, key);
    case MoreMembers(m, rest) =>
      var next := MemberGoesOn(s, i, m, rest);
      FindsFirstMember(s, next, rest, key);
      FindsLater(s, i, m, rest, key);
  }

  lemma {:induction false} MemberGoesOn(s: Text, i: nat, m: Member, rest: Members) returns (next: nat)
    requires At(s, i, RenderMember(m) + COMMA + RenderMembers(rest) + "}")
    ensures next == i + |RenderMember(m)| + 1 && At(s, i, RenderMember(m))
    ensures next <= |s| && s[next - 1] == ',' && At(s, next, RenderMembers(rest) + "}")
  {
    next := i + |RenderMember(m)| + 1;
    var more := RenderMember(m) + COMMA + RenderMembers(rest);
    AtSplits(s, i, more, "}");
    AtSplits(s, i, RenderMember(m) + COMMA, RenderMembers(rest));
    AtSplits(s, i, RenderMember(m), COMMA);
    AtByte(s, i + |RenderMember(m)|, COMMA, 0);
    hide At, RenderMember, RenderMembers;
    AtSplits(s, next, RenderMembers(rest), "}");
  }

  /** An object as a text of its own, with white space before it and anything after it. */
  predicate IsObjectText(s: Text, pad: Text, ms: Members) {
    Blank(pad) && WellFormedMembers(ms) && At(s, 0, pad + Render(Obj(ms)))
  }

  lemma {:induction false} ObjectOpens(s: Text, pad: Text, ms: Members)
    requires IsObjectText(s, pad, ms)
    ensures |pad| < |s| && s[|pad|] == '{' && Skip(s, 0) == |pad|
    ensures At(s, |pad| + 1, RenderMembers(ms) + "}")
  {
    AtSplits(s, 0, pad, Render(Obj(ms)));
    var inner := RenderMembers(ms) + "}";
    assert Render(Obj(ms)) == "{" + inner;
    AtSplits(s, |pad|, "{", inner);
    AtByte(s, |pad|, "{", 0);
    hide At, RenderMembers;
    SkipsBlank(s, 0, pad);
  }

  lemma {:induction false} RawOfFound(s: Text, i: nat, key: Text, expected: Option<(Json, nat)>)
    requires FoundAs(s, i, Find(s, key), expected)
    ensures Raw(s, key) == match expected case None => None case Some((v, at)) => Some(Render(v))
  {
    hide At, Find, Render, WellFormed, SkipValue, Delimited;
    match expected
    case None =>
    case Some((v, at)) =>
      SkipsExactlyTheValue(s, i + at, v);
      AtKey(s, i + at, Render(v));
  }

  /** On every rendered object, lookup returns the first member whose name is written as key, or
      reports that there is none; and jraw returns exactly the text of that member's value. */
  lemma {:induction false} LookupInObject(s: Text, pad: Text, ms: Members, key: Text)
    requires IsObjectText(s, pad, ms)
    ensures FoundAs(s, |pad| + 1, Find(s, key), Lookup(ms, key))
    ensures Raw(s, key) == match Lookup(ms, key)
                           case None => None
                           case Some((v, at)) => Some(Render(v))
  {
    ObjectOpens(s, pad, ms);
    IsObjectMembers(s, pad, ms);
    hide FindMember, RenderMembers, IsObjectText, Lookup, Render, Skip, SkipValue, At, FoundAs, WellFormedMembers;
    FindsFirstMember(s, |pad| + 1, ms, key);
    RawOfFound(s, |pad| + 1, key, Lookup(ms, key));
  }

  lemma {:induction false} IsObjectMembers(s: Text, pad: Text, ms: Members)
    requires IsObjectText(s, pad, ms)
    ensures WellFormedMembers(ms)
  {
  }
}
