/** Wherever the span finder finds an object in a stored text, the splice exchanges one value of its tree; and
    exactly when the reader then finds the new credential. */
module SpliceTree {
  import opened Options
  import opened CText
  import opened JsonScan
  import opened JsonGrammar
  import opened Splice

  // ----- a name, its colon and an object, somewhere in a text

  /** A byte that can stand before a quote only inside a string. */
  predicate Inside(c: char) {
    !IsSpace(c) && c != '"' && c != '\\' && c != ':' && c != ',' && !IsOpen(c) && !IsClose(c)
  }

  /** A quote at q after such a byte, then a colon at c and an open brace at a, with space between. */
  predicate Leads(x: Text, q: nat, c: nat, a: nat) {
    && 0 < q < c < a < |x| && x[q] == '"' && Inside(x[q - 1]) && x[c] == ':' && x[a] == '{'
    && (forall k :: q < k < c ==> IsSpace(x[k])) && (forall k :: c < k < a ==> IsSpace(x[k]))
  }

  /** The rendered object of inner stands at a. */
  predicate Holds(x: Text, a: nat, inner: Members) {
    At(x, a, Render(Obj(inner))) && WellFormedMembers(inner)
  }

  /** x with the object at a exchanged for y. */
  function Swapped(x: Text, a: nat, inner: Members, y: Text): Text
    requires Holds(x, a, inner)
  {
    Exchanged(x, a, a + |Render(Obj(inner))|, y)
  }

  lemma {:induction false} LeadsInside(x: Text, from: nat, to: nat, q: nat, c: nat, a: nat)
    requires Leads(x, q, c, a) && from < q && a < to <= |x|
    ensures Leads(x[from..to], q - from, c - from, a - from)
  {
    hide Inside, IsSpace;
    var y := x[from..to];
    assert forall k :: from <= k < to ==> y[k - from] == x[k];
    forall k | q - from < k < c - from ensures IsSpace(y[k]) {
      assert IsSpace(x[k + from]);
    }
    forall k | c - from < k < a - from ensures IsSpace(y[k]) {
      assert IsSpace(x[k + from]);
    }
  }

  lemma {:induction false} Lift(front: Text, x: Text, back: Text, a: nat, inner: Members, y: Text)
    requires Holds(x, a, inner)
    ensures Holds(front + x + back, |front| + a, inner)
    ensures Swapped(front + x + back, |front| + a, inner, y) == front + Swapped(x, a, inner, y) + back
  {
    hide Render, Exchanged, WellFormedMembers;
    var n := |Render(Obj(inner))|;
    ExchangeInside(front, x, back, a, a + n, y);
    var z := front + x + back;
    assert z[|front| + a..|front| + a + n] == x[a..a + n];
  }

  // ----- what cannot lead to an object

  lemma {:induction false} QuotesAreEscaped(t: Text, k: nat)
    requires StringBody(t) && k < |t| && t[k] == '"'
    ensures k > 0 && t[k - 1] == '\\'
  {
    if t[0] == '\\' {
      if k > 1 {
        QuotesAreEscaped(t[2..], k - 2);
      }
    } else {
      QuotesAreEscaped(t[1..], k - 1);
    }
  }

  lemma {:induction false} NotFromString(body: Text, q: nat, c: nat, a: nat)
    requires StringBody(body)
    ensures !Leads(QUOTE + body + QUOTE, q, c, a)
  {
    var x := QUOTE + body + QUOTE;
    if Leads(x, q, c, a) {
      assert 0 < q < |x| - 1 && x[q] == body[q - 1];
      if q > 1 {
        assert x[q - 1] == body[q - 2];
      }
      QuotesAreEscaped(body, q - 1);
    }
  }

  lemma {:induction false} NotFromAtom(text: Text, q: nat, c: nat, a: nat)
    requires AtomText(text)
    ensures !Leads(text, q, c, a)
  {
  }

  lemma {:induction false} NotFromBlank(pad: Text, q: nat, c: nat, a: nat)
    requires Blank(pad)
    ensures !Leads(pad, q, c, a)
  {
  }

  // ----- the way down to the object

  lemma {:induction false} BracketsAround(open: Text, x: Text, close: Text, q: nat, c: nat, a: nat)
    requires |open| == 1 && |close| == 1 && IsOpen(open[0]) && IsClose(close[0]) && Leads(open + x + close, q, c, a)
    ensures q > 1 && Leads(x, q - 1, c - 1, a - 1)
  {
    var z := open + x + close;
    assert z[0] == open[0] && z[|z| - 1] == close[0];
    assert a < |z| - 1;
    LeadsInside(z, 1, |z| - 1, q, c, a);
    assert z[1..|z| - 1] == x;
  }

  lemma {:induction false} SpaceAround(pre: Text, x: Text, post: Text, q: nat, c: nat, a: nat)
    requires Blank(pre) && Blank(post) && Leads(pre + x + post, q, c, a)
    ensures q > |pre| && Leads(x, q - |pre|, c - |pre|, a - |pre|)
  {
    var z := pre + x + post;
    assert forall k :: 0 <= k < |pre| ==> z[k] == pre[k];
    assert forall k :: |pre| + |x| <= k < |z| ==> z[k] == post[k - |pre| - |x|];
    assert q > |pre| && a < |pre| + |x|;
    LeadsInside(z, |pre|, |pre| + |x|, q, c, a);
    assert z[|pre|..|pre| + |x|] == x;
  }

  /** With a comma between them, the whole way lies on one side. */
  lemma {:induction false} CommaBetween(x: Text, y: Text, q: nat, c: nat, a: nat)
    requires Leads(x + COMMA + y, q, c, a)
    ensures q < |x| ==> Leads(x, q, c, a)
    ensures q < c < a
    ensures q >= |x| ==> q > |x| + 1 && Leads(y, q - |x| - 1, c - |x| - 1, a - |x| - 1)
  {
    var z := x + COMMA + y;
    assert z[|x|] == ',';
    if q < |x| {
      assert a < |x|;
      LeadsInside(z, 0, |x|, q, c, a);
      assert z[0..|x|] == x;
    } else {
      assert q > |x| + 1;
      LeadsInside(z, |x| + 1, |z|, q, c, a);
      assert z[|x| + 1..|z|] == y;
    }
  }

  /** Inside a value, the way leads to an object in its tree. */
  lemma {:induction false} InValue(v: Json, q: nat, c: nat, a: nat, y: Json) returns (w: Json, inner: Members)
    requires WellFormed(v) && WellFormed(y) && Leads(Render(v), q, c, a)
    ensures Holds(Render(v), a, inner) && WellFormed(w)
    ensures Render(w) == Swapped(Render(v), a, inner, Render(y))
    decreases v, 0
  {
    hide Leads, Holds, Swapped, Blank, StringBody, AtomText, RenderItems, RenderMembers;
    match v
    case Str(body) =>
      NotFromString(body, q, c, a);
    case Atom(text) =>
      NotFromAtom(text, q, c, a);
    case Arr(items) =>
      BracketsAround("[", RenderItems(items), "]", q, c, a);
      var ns;
      ns, inner := InItems(items, q - 1, c - 1, a - 1, y);
      Lift("[", RenderItems(items), "]", a - 1, inner, Render(y));
      w := Arr(ns);
    case Obj(ms) =>
      BracketsAround("{", RenderMembers(ms), "}", q, c, a);
      var ns;
      ns, inner := InMembers(ms, q - 1, c - 1, a - 1, y, []);
      Lift("{", RenderMembers(ms), "}", a - 1, inner, Render(y));
      w := Obj(ns);
  }

  lemma {:induction false} InPadded(pre: Text, v: Json, post: Text, q: nat, c: nat, a: nat, y: Json)
    returns (w: Json, inner: Members)
    requires Blank(pre) && WellFormed(v) && Blank(post) && WellFormed(y) && Leads(pre + Render(v) + post, q, c, a)
    ensures Holds(pre + Render(v) + post, a, inner) && WellFormed(w)
    ensures pre + Render(w) + post == Swapped(pre + Render(v) + post, a, inner, Render(y))
    decreases v, 1
  {
    hide Leads, Holds, Swapped, Render, WellFormed, Blank;
    SpaceAround(pre, Render(v), post, q, c, a);
    w, inner := InValue(v, q - |pre|, c - |pre|, a - |pre|, y);
    Lift(pre, Render(v), post, a - |pre|, inner, Render(y));
  }

  lemma {:induction false} InItems(items: Items, q: nat, c: nat, a: nat, y: Json) returns (ns: Items, inner: Members)
    requires WellFormedItems(items) && WellFormed(y) && Leads(RenderItems(items), q, c, a)
    ensures Holds(RenderItems(items), a, inner) && WellFormedItems(ns) && (ns.NoItems? <==> items.NoItems?)
    ensures RenderItems(ns) == Swapped(RenderItems(items), a, inner, Render(y))
    decreases items, 0
  {
    hide Leads, Holds, Swapped, Render, WellFormed, Blank;
    match items
    case NoItems(pad) =>
      NotFromBlank(pad, q, c, a);
    case LastItem(pre, v, post) =>
      var w;
      w, inner := InPadded(pre, v, post, q, c, a, y);
      ns := LastItem(pre, w, post);
    case MoreItems(pre, v, post, rest) =>
      var one := pre + Render(v) + post;
      CommaBetween(one, RenderItems(rest), q, c, a);
      if q < |one| {
        var w;
        w, inner := InPadded(pre, v, post, q, c, a, y);
        LiftFront(one, COMMA + RenderItems(rest), a, inner, Render(y));
        assert one + (COMMA + RenderItems(rest)) == RenderItems(items);
        ns := MoreItems(pre, w, post, rest);
        assert RenderItems(ns) == (pre + Render(w) + post) + (COMMA + RenderItems(rest));
      } else {
        var more;
        more, inner := InItems(rest, q - |one| - 1, c - |one| - 1, a - |one| - 1, y);
        LiftBack(one + COMMA, RenderItems(rest), a - |one| - 1, inner, Render(y));
        ns := MoreItems(pre, v, post, more);
      }
  }

  lemma {:induction false} LiftFront(x: Text, back: Text, a: nat, inner: Members, y: Text)
    requires Holds(x, a, inner)
    ensures Holds(x + back, a, inner) && Swapped(x + back, a, inner, y) == Swapped(x, a, inner, y) + back
  {
    hide Holds, Swapped;
    Lift([], x, back, a, inner, y);
    assert [] + x + back == x + back && [] + Swapped(x, a, inner, y) + back == Swapped(x, a, inner, y) + back;
  }

  lemma {:induction false} LiftBack(front: Text, x: Text, a: nat, inner: Members, y: Text)
    requires Holds(x, a, inner)
    ensures Holds(front + x, |front| + a, inner)
    ensures Swapped(front + x, |front| + a, inner, y) == front + Swapped(x, a, inner, y)
  {
    hide Holds, Swapped;
    Lift(front, x, [], a, inner, y);
    assert front + x + [] == front + x && front + Swapped(x, a, inner, y) + [] == front + Swapped(x, a, inner, y);
  }

  // ----- members

  lemma {:induction false} BlankBytes(x: Text, i: nat, pad: Text)
    requires At(x, i, pad) && Blank(pad)
    ensures i + |pad| <= |x| && forall j :: i <= j < i + |pad| ==> IsSpace(x[j])
  {
    hide IsSpace;
    forall j | i <= j < i + |pad| ensures IsSpace(x[j]) {
      AtByte(x, i, pad, j - i);
    }
  }

  lemma {:induction false} QuotedBytes(x: Text, i: nat, body: Text)
    requires At(x, i, QUOTE + body + QUOTE)
    ensures i + |body| + 1 < |x| && x[i] == '"' && x[i + |body| + 1] == '"'
    ensures forall j :: i < j <= i + |body| ==> x[j] == body[j - i - 1]
  {
    var t := QUOTE + body + QUOTE;
    assert x[i..i + |t|] == t;
    forall j | i <= j < i + |t| ensures x[j] == t[j - i] {
      AtByte(x, i, t, j - i);
    }
  }

  /** Where the parts of a name stand, byte by byte. */
  lemma {:induction false} NameBytes(x: Text, o: nat, m: Member)
    requires At(x, o, RenderName(m)) && Blank(m.mid) && Blank(m.lead)
    ensures var k := o + 1 + |m.key|; var c := k + 1 + |m.mid|; var v := c + 1 + |m.lead|;
            && v == o + |RenderName(m)| <= |x| && x[o] == '"' && x[k] == '"' && x[c] == ':'
            && (forall j :: o < j < k ==> x[j] == m.key[j - o - 1])
            && (forall j :: k < j < c ==> IsSpace(x[j]))
            && (forall j :: c < j < v ==> IsSpace(x[j]))
  {
    hide At, RenderName, IsSpace, Blank;
    AtName(x, o, m);
    QuotedBytes(x, o, m.key);
    BlankBytes(x, o + |m.key| + 2, m.mid);
    BlankBytes(x, o + |m.key| + 3 + |m.mid|, m.lead);
    AtByte(x, o + |m.key| + 2 + |m.mid|, COLON, 0);
  }

  lemma {:induction false} WholeAt(x: Text)
    ensures At(x, 0, x)
  {
    assert x[0..|x|] == x;
  }

  /** A quote in a name that leads to an object is the one that closes it, and the object is the value. */
  lemma {:induction false} NameLeads(x: Text, o: nat, m: Member, q: nat, c: nat, a: nat)
    requires At(x, o, RenderName(m)) && WellFormedMember(m) && Leads(x, q, c, a)
    requires o <= q < o + |RenderName(m)| && (q == o > 0 ==> !Inside(x[o - 1]))
    requires At(x, o + |RenderName(m)|, Render(m.v))
    ensures q == o + 1 + |m.key| && a == o + |RenderName(m)| && m.v.Obj?
  {
    MemberParts(m);
    FirstByte(m.v);
    AtByte(x, o + |RenderName(m)|, Render(m.v), 0);
    hide At, Render, RenderName, WellFormedMember, Blank;
    NameBytes(x, o, m);
    var k := o + 1 + |m.key|;
    if o < q < k {
      QuotesAreEscaped(m.key, q - o - 1);
    }
  }

  lemma {:induction false} AfterFront(front: Text, y: Text, post: Text, q: nat, c: nat, a: nat)
    requires Blank(post) && front != [] && !Inside(front[|front| - 1])
    requires Leads(front + y + post, q, c, a) && q >= |front|
    ensures q > |front| && Leads(y, q - |front|, c - |front|, a - |front|)
  {
    var z := front + y + post;
    assert forall k :: |front| + |y| <= k < |z| ==> z[k] == post[k - |front| - |y|];
    assert z[|front| - 1] == front[|front| - 1];
    assert q > |front| && a < |front| + |y|;
    LeadsInside(z, |front|, |front| + |y|, q, c, a);
    assert z[|front|..|front| + |y|] == y;
  }

  lemma {:induction false} FrontEnds(m: Member)
    requires WellFormedMember(m)
    ensures var front := m.pre + RenderName(m); front != [] && !Inside(front[|front| - 1])
  {
    var front := m.pre + RenderName(m);
    MemberParts(m);
    WholeAt(front);
    AtSplits(front, 0, m.pre, RenderName(m));
    hide At, RenderName, WellFormedMember, Blank;
    NameBytes(front, |m.pre|, m);
  }

  /** A quote behind the name that leads to an object lies in the value, past its first byte. */
  lemma {:induction false} ValueLeads(m: Member, q: nat, c: nat, a: nat)
    requires WellFormedMember(m) && Leads(RenderMember(m), q, c, a)
    requires q >= |m.pre| + |RenderName(m)|
    ensures var v := |m.pre| + |RenderName(m)|; q > v && Leads(Render(m.v), q - v, c - v, a - v)
  {
    hide Leads, Inside, Render, RenderName, WellFormedMember, Blank, WellFormed;
    MemberParts(m);
    FrontEnds(m);
    AfterFront(m.pre + RenderName(m), Render(m.v), m.post, q, c, a);
  }

  lemma {:induction false} QuoteBehindPre(m: Member, q: nat, c: nat, a: nat)
    requires WellFormedMember(m) && Leads(RenderMember(m), q, c, a)
    ensures q >= |m.pre| && (|m.pre| > 0 ==> !Inside(RenderMember(m)[|m.pre| - 1]))
  {
    MemberParts(m);
    WholeAt(RenderMember(m));
    AtMember(RenderMember(m), 0, m);
    hide At, RenderMember, RenderName, Render, WellFormedMember, Blank;
    BlankBytes(RenderMember(m), 0, m.pre);
  }

  lemma {:induction false} QuoteInName(m: Member, q: nat, c: nat, a: nat)
    requires WellFormedMember(m) && Leads(RenderMember(m), q, c, a) && q < |m.pre| + |RenderName(m)|
    ensures q == |m.pre| + 1 + |m.key| && a == |m.pre| + |RenderName(m)| && m.v.Obj?
  {
    QuoteBehindPre(m, q, c, a);
    WholeAt(RenderMember(m));
    AtMember(RenderMember(m), 0, m);
    hide *;
    NameLeads(RenderMember(m), |m.pre|, m, q, c, a);
  }

  lemma {:induction false} ObjectParts(v: Json)
    requires v.Obj? && WellFormed(v)
    ensures v == Obj(v.members) && WellFormedMembers(v.members)
  {
  }

  /** The name of a member leads to its own value, a quote behind the name to an object inside the value. */
  lemma {:induction false} InMember(m: Member, q: nat, c: nat, a: nat, y: Json) returns (w: Json, inner: Members)
    requires WellFormedMember(m) && WellFormed(y) && Leads(RenderMember(m), q, c, a)
    ensures Holds(RenderMember(m), a, inner) && WellFormedMember(m.(v := w))
    ensures RenderMember(m.(v := w)) == Swapped(RenderMember(m), a, inner, Render(y))
    ensures q >= |m.pre| + 1 + |m.key|
    decreases m, 0
  {
    hide Leads, Holds, Swapped, Render, RenderMember, Inside, WellFormed, RenderName;
    var front := m.pre + RenderName(m);
    MemberText(m);
    if q < |front| {
      QuoteInName(m, q, c, a);
      ObjectParts(m.v);
      w, inner := y, m.v.members;
      OwnValue(Obj(inner).members, Render(y));
      Lift(front, Render(m.v), m.post, 0, inner, Render(y));
    } else {
      NameLength(m);
      LeadsOrder(RenderMember(m), q, c, a);
      ValueLeads(m, q, c, a);
      w, inner := InValue(m.v, q - |front|, c - |front|, a - |front|, y);
      Lift(front, Render(m.v), m.post, a - |front|, inner, Render(y));
    }
    MemberText(m.(v := w));
    SameName(m, w);
  }

  lemma {:induction false} MemberText(m: Member)
    ensures RenderMember(m) == (m.pre + RenderName(m)) + Render(m.v) + m.post
  {
    hide Render, RenderName;
  }

  lemma {:induction false} NameLength(m: Member)
    ensures |RenderName(m)| >= |m.key| + 3
  {
  }

  lemma {:induction false} OwnValue(inner: Members, y: Text)
    requires WellFormedMembers(inner)
    ensures Holds(Render(Obj(inner)), 0, inner) && Swapped(Render(Obj(inner)), 0, inner, y) == y
  {
    hide Render;
    WholeAt(Render(Obj(inner)));
  }

  /** In rendered members: one value is exchanged. What lookup finds under any key stays the same, unless the
      way begins at the closing quote of the name of that very member, or behind it. */
  lemma {:induction false} InMembers(ms: Members, q: nat, c: nat, a: nat, y: Json, key: Text)
    returns (ns: Members, inner: Members)
    requires WellFormedMembers(ms) && WellFormed(y) && Leads(RenderMembers(ms), q, c, a)
    ensures Holds(RenderMembers(ms), a, inner) && WellFormedMembers(ns) && (ns.NoMembers? <==> ms.NoMembers?)
    ensures RenderMembers(ns) == Swapped(RenderMembers(ms), a, inner, Render(y))
    ensures ValueOf(Lookup(ns, key)) == ValueOf(Lookup(ms, key))
            || (Named(ms, key).Some? && q >= Named(ms, key).value.1 + 1 + |key|)
    decreases ms, 0
  {
    hide Leads, Holds, Swapped, Render, RenderMember, RenderName, WellFormed, WellFormedMember, Blank;
    match ms
    case NoMembers(pad) =>
      NotFromBlank(pad, q, c, a);
    case LastMember(m) =>
      var w;
      w, inner := InMember(m, q, c, a, y);
      ns := LastMember(m.(v := w));
    case MoreMembers(m, rest) =>
      var one := RenderMember(m);
      CommaBetween(one, RenderMembers(rest), q, c, a);
      if q < |one| {
        var w;
        w, inner := InMember(m, q, c, a, y);
        LiftFront(one, COMMA + RenderMembers(rest), a, inner, Render(y));
        assert one + (COMMA + RenderMembers(rest)) == RenderMembers(ms);
        ns := MoreMembers(m.(v := w), rest);
        assert RenderMembers(ns) == RenderMember(m.(v := w)) + (COMMA + RenderMembers(rest));
      } else {
        var more;
        more, inner := InMembers(rest, q - |one| - 1, c - |one| - 1, a - |one| - 1, y, key);
        LiftBack(one + COMMA, RenderMembers(rest), a - |one| - 1, inner, Render(y));
        ns := MoreMembers(m, more);
      }
  }

  // ----- the stored text

  /** A stored object: space before it and after it. */
  function Stored(pad: Text, ms: Members, tail: Text): Text {
    pad + "{" + RenderMembers(ms) + "}" + tail
  }

  lemma {:induction false} StoredIsObject(pad: Text, ms: Members, tail: Text)
    requires Blank(pad) && WellFormedMembers(ms)
    ensures IsObjectText(Stored(pad, ms, tail), pad, ms)
  {
    hide *;
    StoredText(pad, ms, tail);
    IsObjectTextOf(Stored(pad, ms, tail), pad, ms, tail);
  }

  lemma {:induction false} StoredText(pad: Text, ms: Members, tail: Text)
    ensures Stored(pad, ms, tail) == pad + "{" + RenderMembers(ms) + "}" + tail
    ensures Stored(pad, ms, tail)[|pad|] == '{' && |Stored(pad, ms, tail)| > |pad| + 1
  {
    hide RenderMembers;
  }

  lemma {:induction false} KeyEnds()
    ensures |KEY| > 0 && Inside(KEY[|KEY| - 1])
  {
  }

  /** A span begins behind the closing quote of the first textual occurrence of the key. */
  lemma {:induction false} SpanLeads(s: Text)
    requires Span(s, KEY).Some?
    ensures Strstr(s, Needle(KEY), 0).Some?
    ensures var q := Strstr(s, Needle(KEY), 0).value + 1 + |KEY|;
            var c := Skip(s, q + 1);
            q < |s| && Leads(s, q, c, Span(s, KEY).value.0)
  {
    hide KEY, Needle, Strstr, Span, ObjectEnd, Inside, IsSpace, At, Skip;
    SpanParts(s, KEY);
    var p := Strstr(s, Needle(KEY), 0).value;
    NeedleQuotes(s, KEY, p);
    KeyEnds();
    AtByte(s, p, Needle(KEY), |KEY|);
    NeedleText(KEY);
    var q := p + 1 + |KEY|;
    SkippedAreBlank(s, q + 1);
    SkippedAreBlank(s, Skip(s, q + 1) + 1);
  }

  lemma {:induction false} NeedleText(key: Text)
    requires key != []
    ensures |Needle(key)| == |key| + 2 && Needle(key)[|key|] == key[|key| - 1]
  {
  }

  lemma {:induction false} FrontByte(pad: Text, ms: Members, tail: Text, k: nat)
    requires Blank(pad) && k <= |pad|
    ensures k < |Stored(pad, ms, tail)| && (IsSpace(Stored(pad, ms, tail)[k]) || Stored(pad, ms, tail)[k] == '{')
  {
    hide RenderMembers, IsSpace;
  }

  lemma {:induction false} BackByte(pad: Text, ms: Members, tail: Text, k: nat)
    requires Blank(tail) && |pad| + 1 + |RenderMembers(ms)| <= k < |Stored(pad, ms, tail)|
    ensures IsSpace(Stored(pad, ms, tail)[k]) || Stored(pad, ms, tail)[k] == '}'
  {
    hide RenderMembers, IsSpace;
    StoredParts(pad, ms, tail);
    var n := |pad| + 1 + |RenderMembers(ms)|;
    assert Stored(pad, ms, tail)[k] == ("}" + tail)[k - n];
  }

  /** In a stored object the way lies among the members. */
  lemma {:induction false} StoredLeads(pad: Text, ms: Members, tail: Text, q: nat, c: nat, a: nat)
    requires Blank(pad) && Blank(tail) && Leads(Stored(pad, ms, tail), q, c, a)
    ensures q > |pad| + 1 && Leads(RenderMembers(ms), q - |pad| - 1, c - |pad| - 1, a - |pad| - 1)
  {
    StoredParts(pad, ms, tail);
    hide RenderMembers, Stored, Blank;
    var (front, x) := (pad + "{", RenderMembers(ms));
    var z := Stored(pad, ms, tail);
    FrontByte(pad, ms, tail, if q <= |pad| then q else if q == |pad| + 1 then |pad| else 0);
    if a >= |front| + |x| {
      BackByte(pad, ms, tail, a);
    }
    LeadsInside(z, |front|, |front| + |x|, q, c, a);
    assert z[|front|..|front| + |x|] == x;
  }

  /** Splicing a new object into a stored one exchanges a value in its tree, and lookup under the key changes
      only when the first textual occurrence is the name of the member it finds. */
  lemma {:induction false} SpliceExchanges(pad: Text, ms: Members, tail: Text, new_: Members) returns (ns: Members)
    requires Blank(pad) && WellFormedMembers(ms) && Blank(tail) && WellFormedMembers(new_)
    requires Span(Stored(pad, ms, tail), KEY).Some?
    ensures WellFormedMembers(ns)
    ensures Replace(Stored(pad, ms, tail), Render(Obj(new_))) == Stored(pad, ns, tail)
    ensures ValueOf(Lookup(ns, KEY)) == ValueOf(Lookup(ms, KEY))
            || (Named(ms, KEY).Some? && Strstr(Stored(pad, ms, tail), Needle(KEY), 0).Some?
                && Strstr(Stored(pad, ms, tail), Needle(KEY), 0).value >= |pad| + 1 + Named(ms, KEY).value.1)
  {
    hide *;
    var s := Stored(pad, ms, tail);
    var (a, e) := Span(s, KEY).value;
    SpanLeads(s);
    var q := Strstr(s, Needle(KEY), 0).value + 1 + |KEY|;
    var c := Skip(s, q + 1);
    StoredLeads(pad, ms, tail, q, c, a);
    LeadsOrder(s, q, c, a);
    var inner;
    ObjectWellFormed(new_);
    ns, inner := InMembers(ms, q - |pad| - 1, c - |pad| - 1, a - |pad| - 1, Obj(new_), KEY);
    var front: Text := pad + "{";
    var back: Text := "}" + tail;
    Lift(front, RenderMembers(ms), back, a - |pad| - 1, inner, Render(Obj(new_)));
    StoredParts(pad, ms, tail);
    StoredParts(pad, ns, tail);
    SpanIsHeld(s, inner);
    ReplaceSplices(s, Render(Obj(new_)));
    SwappedIsSpliced(s, a, inner, Render(Obj(new_)));
  }

  lemma {:induction false} LeadsOrder(x: Text, q: nat, c: nat, a: nat)
    requires Leads(x, q, c, a)
    ensures q < c < a
  {
  }

  lemma {:induction false} StoredParts(pad: Text, ms: Members, tail: Text)
    ensures Stored(pad, ms, tail) == (pad + "{") + RenderMembers(ms) + ("}" + tail)
  {
    hide RenderMembers;
  }

  /** The span is the object that stands there. */
  lemma {:induction false} SpanIsHeld(s: Text, inner: Members)
    requires Span(s, KEY).Some? && Holds(s, Span(s, KEY).value.0, inner)
    ensures Span(s, KEY).value.1 == Span(s, KEY).value.0 + |Render(Obj(inner))|
  {
    SpanParts(s, KEY);
    hide Span, Render, At, WellFormedMembers, Strstr, Skip, ObjectEnd;
    ObjectCloses(s, Span(s, KEY).value.0, inner);
  }

  lemma {:induction false} SwappedIsSpliced(s: Text, a: nat, inner: Members, y: Text)
    requires Holds(s, a, inner)
    ensures var e := a + |Render(Obj(inner))|; a < e <= |s| && Spliced(s, (a, e), y) == Swapped(s, a, inner, y)
  {
    FirstByteOfObject(inner);
    hide Render;
  }

  /** The first textual occurrence of the key is the name of the member it names, and that holds an object. */
  predicate FirstIsOwnName(pad: Text, ms: Members, tail: Text) {
    && Named(ms, KEY).Some? && Named(ms, KEY).value.0.v.Obj?
    && Strstr(Stored(pad, ms, tail), Needle(KEY), 0) == Some(|pad| + 1 + Named(ms, KEY).value.1)
  }

  lemma {:induction false} FirstOccurrenceReachesName(pad: Text, ms: Members, tail: Text)
    requires Blank(pad) && WellFormedMembers(ms) && Named(ms, KEY).Some?
    ensures Strstr(Stored(pad, ms, tail), Needle(KEY), 0).Some?
    ensures Strstr(Stored(pad, ms, tail), Needle(KEY), 0).value <= |pad| + 1 + Named(ms, KEY).value.1
  {
    hide *;
    var s := Stored(pad, ms, tail);
    var (m, n) := Named(ms, KEY).value;
    StoredIsObject(pad, ms, tail);
    MembersAt(s, pad, ms);
    NamedIsLookup(s, |pad| + 1, ms, KEY);
    NamedHasKey(ms, KEY);
    NameStartsWithNeedle(s, |pad| + 1 + n, m);
    AtLength(s, |pad| + 1 + n, Needle(KEY));
  }

  /** When the first occurrence is the name of a member and there is a span, that member holds an object. */
  lemma {:induction false} OwnNameHoldsObject(pad: Text, ms: Members, tail: Text)
    requires Blank(pad) && WellFormedMembers(ms) && Named(ms, KEY).Some?
    requires Span(Stored(pad, ms, tail), KEY).Some?
    requires Strstr(Stored(pad, ms, tail), Needle(KEY), 0) == Some(|pad| + 1 + Named(ms, KEY).value.1)
    ensures Named(ms, KEY).value.0.v.Obj?
  {
    hide *;
    var s := Stored(pad, ms, tail);
    var (m, n) := Named(ms, KEY).value;
    StoredIsObject(pad, ms, tail);
    MembersAt(s, pad, ms);
    NamedIsLookup(s, |pad| + 1, ms, KEY);
    NamedHasKey(ms, KEY);
    SpanLeads(s);
    NameLength(m);
    var o := |pad| + 1 + n;
    NameLeads(s, o, m, o + 1 + |KEY|, Skip(s, o + 2 + |KEY|), Span(s, KEY).value.0);
  }

  lemma {:induction false} RawOfStored(pad: Text, ms: Members, tail: Text, key: Text)
    requires Blank(pad) && WellFormedMembers(ms)
    ensures Raw(Stored(pad, ms, tail), key)
            == match ValueOf(Lookup(ms, key)) case None => None case Some(v) => Some(Render(v))
  {
    hide *;
    StoredIsObject(pad, ms, tail);
    RawIsValue(Stored(pad, ms, tail), pad, ms, key);
  }

  /** With a span that is not that of the member the reader finds, the reader goes on finding what it found. */
  lemma {:induction false} SpliceElsewhere(pad: Text, ms: Members, tail: Text, new_: Members)
    requires Blank(pad) && WellFormedMembers(ms) && Blank(tail) && WellFormedMembers(new_)
    requires Span(Stored(pad, ms, tail), KEY).Some? && !FirstIsOwnName(pad, ms, tail)
    ensures var s := Stored(pad, ms, tail); Raw(Replace(s, Render(Obj(new_))), KEY) == Raw(s, KEY)
  {
    hide Stored, Render, Raw, Replace, Lookup, Span, Strstr, Needle, KEY, Named, WellFormedMembers, Blank;
    var s := Stored(pad, ms, tail);
    var ns := SpliceExchanges(pad, ms, tail, new_);
    RawOfStored(pad, ms, tail, KEY);
    RawOfStored(pad, ns, tail, KEY);
    if Named(ms, KEY).Some? {
      FirstOccurrenceReachesName(pad, ms, tail);
      if Strstr(s, Needle(KEY), 0) == Some(|pad| + 1 + Named(ms, KEY).value.1) {
        OwnNameHoldsObject(pad, ms, tail);
      }
    }
  }

  lemma {:induction false} SpliceAtName(pad: Text, ms: Members, tail: Text, new_: Members)
    requires Blank(pad) && WellFormedMembers(ms) && WellFormedMembers(new_) && FirstIsOwnName(pad, ms, tail)
    ensures Raw(Replace(Stored(pad, ms, tail), Render(Obj(new_))), KEY) == Some(Render(Obj(new_)))
  {
    hide Stored, Render, Raw, Replace, Lookup, Span, Strstr, Needle, KEY, Named, WellFormedMembers, Blank;
    var (m, n) := Named(ms, KEY).value;
    StoredIsObject(pad, ms, tail);
    hide IsObjectText;
    ReaderSeesReplacement(Stored(pad, ms, tail), pad, ms, m, n, new_, KEY);
  }

  /** Without a span and with space behind the object, the writer gives the text back as it was. */
  lemma {:induction false} TailKeepsText(pad: Text, ms: Members, tail: Text, new_: Text)
    requires Blank(tail) && tail != [] && Span(Stored(pad, ms, tail), KEY) == None
    ensures Replace(Stored(pad, ms, tail), new_) == Stored(pad, ms, tail)
  {
    StoredText(pad, ms, tail);
    var s := Stored(pad, ms, tail);
    hide Stored, Span, KEY;
    assert s[|s| - 1] == tail[|tail| - 1];
  }

  lemma {:induction false} NoTailAppends(pad: Text, ms: Members, new_: Text)
    requires Span(Stored(pad, ms, []), KEY) == None
    ensures var s: Text := pad + "{" + RenderMembers(ms) + "}";
            Stored(pad, ms, []) == s && Replace(s, new_) == Appended(s, new_)
  {
    StoredText(pad, ms, []);
    hide RenderMembers, Span, KEY, Appended;
    var s: Text := pad + "{" + RenderMembers(ms) + "}";
    assert s + [] == s;
    assert s[|pad|] == '{';
  }

  /** The cases in which the credential writer and the reader mean the same member: the first textual occurrence
      of the key is the name of the member that the reader finds, and it holds an object; or there is no span and
      no such member, and the text ends with the brace of an object that has members or is the two bytes {}. */
  predicate Meets(pad: Text, ms: Members, tail: Text) {
    || FirstIsOwnName(pad, ms, tail)
    || (&& Span(Stored(pad, ms, tail), KEY) == None && Lookup(ms, KEY) == None && tail == []
        && (!ms.NoMembers? || Stored(pad, ms, tail) == "{}"))
  }

  /** For every stored object: after the program has replaced the credential, the reader finds the new one in
      those cases, and in every other what it found before. */
  lemma {:induction false} ReaderAfterReplace(pad: Text, ms: Members, tail: Text, new_: Members)
    requires Blank(pad) && WellFormedMembers(ms) && Blank(tail) && WellFormedMembers(new_)
    ensures var s := Stored(pad, ms, tail); var r := Render(Obj(new_));
            Raw(Replace(s, r), KEY) == if Meets(pad, ms, tail) then Some(r) else Raw(s, KEY)
  {
    hide FirstIsOwnName, Stored, Render, Raw, Replace, Lookup, Span, Strstr, Needle, KEY, Named, WellFormedMembers,
         Blank;
    if FirstIsOwnName(pad, ms, tail) {
      SpliceAtName(pad, ms, tail, new_);
    } else if Span(Stored(pad, ms, tail), KEY).Some? {
      SpliceElsewhere(pad, ms, tail, new_);
    } else if tail != [] {
      TailKeepsText(pad, ms, tail, Render(Obj(new_)));
    } else {
      NoTailAppends(pad, ms, Render(Obj(new_)));
      ReaderAfterAppend(pad, ms, new_);
    }
  }

  /** So what was written is read back exactly in those cases, and when the reader found those bytes already. */
  lemma {:induction false} ReplaceReadsBackExactlyWhen(pad: Text, ms: Members, tail: Text, new_: Members)
    requires Blank(pad) && WellFormedMembers(ms) && Blank(tail) && WellFormedMembers(new_)
    ensures var s := Stored(pad, ms, tail); var r := Render(Obj(new_));
            Raw(Replace(s, r), KEY) == Some(r) <==> Meets(pad, ms, tail) || Raw(s, KEY) == Some(r)
  {
    hide *;
    ReaderAfterReplace(pad, ms, tail, new_);
  }

  // ----- inputs that fail

  lemma {:induction false} BareNeedle(key: Text, v: Json)
    ensures RenderMember(Bare(key, v)) == Needle(key) + COLON + Render(v)
  {
    hide Render;
    BareRenders(key, v);
  }

  const QUOTED_KEY: Text := "\"claudeAiOauth\""

  lemma {:induction false} NeedleIs()
    ensures Needle(KEY) == QUOTED_KEY && |QUOTED_KEY| == 15
  {
  }

  lemma {:induction false} StoredAlone(ms: Members)
    ensures Stored([], ms, []) == "{" + RenderMembers(ms) + "}"
  {
    hide RenderMembers;
  }

  const NULL: Json := Atom("null")

  const NULL_MEMBER: Members := LastMember(Bare(KEY, NULL))

  lemma {:induction false} NullIs()
    ensures WellFormed(NULL) && Render(NULL) == "null" && !NULL.Obj?
  {
  }

  lemma {:induction false} NullMemberIs()
    ensures WellFormedMembers(NULL_MEMBER) && ValueOf(Lookup(NULL_MEMBER, KEY)) == Some(NULL)
    ensures Named(NULL_MEMBER, KEY).Some? && Named(NULL_MEMBER, KEY).value.0.v == NULL
    ensures RenderMembers(NULL_MEMBER) == Needle(KEY) + COLON + Render(NULL)
  {
    hide KEY, NULL, Needle, Render, RenderName, StringBody, WellFormed, WellFormedMember;
    KeyIsBody();
    NullIs();
    BareWellFormed(KEY, NULL);
    BareNeedle(KEY, NULL);
  }

  const NULL_TEXT: Text := "{" + QUOTED_KEY + ":null}"

  lemma {:induction false} NullMemberText()
    ensures Stored([], NULL_MEMBER, []) == NULL_TEXT
  {
    hide Stored, NULL_MEMBER, NULL, RenderMembers, Needle, KEY, Render, QUOTED_KEY;
    NullMemberIs();
    NeedleIs();
    NullIs();
    StoredAlone(NULL_MEMBER);
  }

  /** A member that holds null: the writer appends a second of its name, and the reader goes on reading null. */
  lemma {:induction false} NullMemberStays(new_: Members)
    requires WellFormedMembers(new_)
    ensures Raw(Replace(NULL_TEXT, Render(Obj(new_))), KEY) == Some("null")
  {
    hide *;
    NullMemberIs();
    NullMemberText();
    NullIs();
    EmptyIsBlank();
    ReaderAfterReplace([], NULL_MEMBER, [], new_);
    RawOfStored([], NULL_MEMBER, [], KEY);
    NoObjectDoesNotMeet([], NULL_MEMBER, []);
  }

  lemma {:induction false} EmptyIsBlank()
    ensures Blank([])
  {
  }

  lemma {:induction false} SomeValue(ms: Members)
    ensures ValueOf(Lookup(ms, KEY)) == None <==> Lookup(ms, KEY) == None
  {
    hide Lookup;
  }

  lemma {:induction false} NoObjectDoesNotMeet(pad: Text, ms: Members, tail: Text)
    requires Named(ms, KEY).Some? && !Named(ms, KEY).value.0.v.Obj? && ValueOf(Lookup(ms, KEY)) != None
    ensures !Meets(pad, ms, tail)
  {
    hide Stored, Strstr, Named, Lookup, Span;
  }

  lemma {:induction false} NestedDoesNotMeet(pad: Text, ms: Members, tail: Text)
    requires Named(ms, KEY).None? && Span(Stored(pad, ms, tail), KEY) != None
    ensures !Meets(pad, ms, tail)
  {
    hide Stored, Strstr, Named, Lookup, Span;
  }

  const EMPTY: Json := Obj(NoMembers([]))

  lemma {:induction false} EmptyIs()
    ensures WellFormed(EMPTY) && Render(EMPTY) == "{}" && EMPTY.Obj?
  {
  }

  /** The bare credential member with an empty object. */
  lemma {:induction false} EmptyCredential()
    ensures WellFormedMember(Bare(KEY, EMPTY)) && RenderMember(Bare(KEY, EMPTY)) == Needle(KEY) + COLON + Render(EMPTY)
    ensures RenderName(Bare(KEY, EMPTY)) == Needle(KEY) + COLON
  {
    hide KEY, EMPTY, Render, StringBody, WellFormed, WellFormedMember, RenderMember;
    KeyIsBody();
    EmptyIs();
    BareWellFormed(KEY, EMPTY);
    BareNeedle(KEY, EMPTY);
    BareRenders(KEY, EMPTY);
  }

  const X: Text := "x"

  const NESTED: Members := LastMember(Bare(X, Obj(LastMember(Bare(KEY, EMPTY)))))

  lemma {:induction false} NestedIs()
    ensures WellFormedMembers(NESTED) && Lookup(NESTED, KEY) == None && Named(NESTED, KEY) == None
    ensures RenderMembers(NESTED) == Needle(X) + COLON + ("{" + (Needle(KEY) + COLON + Render(EMPTY)) + "}")
  {
    EmptyCredential();
    KeysApart();
    hide KEY, EMPTY, X, RenderMember, RenderName, WellFormedMember, StringBody, Needle;
    var inner := LastMember(Bare(KEY, EMPTY));
    assert WellFormed(Obj(inner)) && Render(Obj(inner)) == "{" + RenderMembers(inner) + "}";
    BareWellFormed(X, Obj(inner));
    BareNeedle(X, Obj(inner));
  }

  lemma {:induction false} KeysApart()
    ensures X != KEY && StringBody(X)
  {
    assert |X| == 1 && |KEY| == 13;
    PlainBody(X);
  }

  const NESTED_TEXT: Text := "{\"x\":{" + QUOTED_KEY + ":{}}}"

  lemma {:induction false} NestedText()
    ensures Stored([], NESTED, []) == NESTED_TEXT
  {
    hide Stored, NESTED, EMPTY, RenderMembers, KEY, X, Render, Needle, QUOTED_KEY;
    NestedIs();
    NeedleIs();
    EmptyIs();
    NeedleX();
    StoredAlone(NESTED);
  }

  lemma {:induction false} NeedleX()
    ensures Needle(X) == "\"x\""
  {
  }

  /** The quoted key stands first at p when no other quote before it has the first byte of the key behind it. */
  lemma {:induction false} FirstKeyAt(s: Text, p: nat)
    requires At(s, p, Needle(KEY)) && p + |Needle(KEY)| <= |s|
    requires forall k :: 0 <= k < p && s[k] == '"' ==> s[k + 1] != 'c'
    ensures Strstr(s, Needle(KEY), 0) == Some(p)
  {
    NeedleText(KEY);
    KeyStarts();
    hide Strstr, At, Needle, KEY;
    forall k | 0 <= k < p ensures !At(s, k, Needle(KEY)) {
      if At(s, k, Needle(KEY)) {
        NeedleQuotes(s, KEY, k);
        AtByte(s, k, Needle(KEY), 1);
      }
    }
    StrstrUnique(s, Needle(KEY), p);
  }

  lemma {:induction false} KeyStarts()
    ensures |Needle(KEY)| > 1 && Needle(KEY)[1] == 'c' && KEY != []
  {
    NeedleIs();
    hide Needle;
  }

  lemma {:induction false} NestedHasSpan()
    ensures Span(NESTED_TEXT, KEY).Some?
  {
    var s := NESTED_TEXT;
    NeedleIs();
    EmptyIs();
    EmptyCredential();
    hide Needle, KEY, EMPTY, RenderName, RenderMember, Render, Strstr, Span, WellFormedMember;
    assert s[6..22] == QUOTED_KEY + COLON && s[22..24] == "{}";
    AtSplits(s, 6, Needle(KEY), COLON);
    FirstKeyAt(s, 6);
    SpanAtName(s, 6, Bare(KEY, EMPTY));
  }

  /** The key only inside another member: the writer puts the credential there, and the reader finds none. */
  lemma {:induction false} NestedKeyIsHit(new_: Members)
    requires WellFormedMembers(new_)
    ensures Raw(Replace(NESTED_TEXT, Render(Obj(new_))), KEY) == None
  {
    hide *;
    NestedIs();
    NestedText();
    NestedHasSpan();
    EmptyIsBlank();
    ReaderAfterReplace([], NESTED, [], new_);
    RawOfStored([], NESTED, [], KEY);
    NestedDoesNotMeet([], NESTED, []);
    SomeValue(NESTED);
  }

  const PROVIDER: Text := "provider"

  const KEY_AS_VALUE: Members := MoreMembers(Bare(PROVIDER, Str(KEY)), LastMember(Bare(KEY, EMPTY)))

  const KEY_AS_VALUE_TEXT: Text := "{\"provider\":" + QUOTED_KEY + "," + QUOTED_KEY + ":{}}"

  lemma {:induction false} KeyAsValueIs()
    ensures WellFormedMembers(KEY_AS_VALUE) && ValueOf(Lookup(KEY_AS_VALUE, KEY)) == Some(EMPTY)
    ensures !KEY_AS_VALUE.NoMembers?
    ensures RenderMembers(KEY_AS_VALUE)
            == (Needle(PROVIDER) + COLON + Needle(KEY)) + COMMA + (Needle(KEY) + COLON + Render(EMPTY))
  {
    EmptyCredential();
    ProviderApart();
    KeyIsBody();
    hide KEY, EMPTY, PROVIDER, RenderMember, RenderName, WellFormedMember, StringBody;
    assert WellFormed(Str(KEY)) && Render(Str(KEY)) == Needle(KEY);
    BareWellFormed(PROVIDER, Str(KEY));
    BareNeedle(PROVIDER, Str(KEY));
  }

  lemma {:induction false} ProviderApart()
    ensures PROVIDER != KEY && StringBody(PROVIDER)
  {
    assert |PROVIDER| == 8 && |KEY| == 13;
    PlainBody(PROVIDER);
  }

  lemma {:induction false} KeyAsValueText()
    ensures Stored([], KEY_AS_VALUE, []) == KEY_AS_VALUE_TEXT
  {
    hide Stored, KEY_AS_VALUE, EMPTY, RenderMembers, KEY, PROVIDER, Render, Needle, QUOTED_KEY;
    KeyAsValueIs();
    NeedleIs();
    EmptyIs();
    NeedleProvider();
    StoredAlone(KEY_AS_VALUE);
  }

  lemma {:induction false} NeedleProvider()
    ensures Needle(PROVIDER) == "\"provider\""
  {
  }

  lemma {:induction false} KeyAsValueHasNoSpan()
    ensures Span(KEY_AS_VALUE_TEXT, KEY) == None
  {
    var s := KEY_AS_VALUE_TEXT;
    NeedleIs();
    hide Needle, KEY, Strstr, ObjectEnd;
    assert s[12..27] == QUOTED_KEY && s[27] == ',';
    FirstKeyAt(s, 12);
    assert Skip(s, 27) == 27;
    hide Skip;
  }

  /** The key as the value of an earlier member: its first occurrence is no name, so the span finder finds
      nothing where the reader does; the writer appends, and the reader goes on reading the old object. */
  lemma {:induction false} KeyAsValueHidesName(new_: Members)
    requires WellFormedMembers(new_)
    ensures Span(KEY_AS_VALUE_TEXT, KEY) == None && Raw(KEY_AS_VALUE_TEXT, KEY) == Some("{}")
    ensures Raw(Replace(KEY_AS_VALUE_TEXT, Render(Obj(new_))), KEY) == Some("{}")
  {
    hide *;
    KeyAsValueIs();
    KeyAsValueText();
    KeyAsValueHasNoSpan();
    EmptyIs();
    EmptyIsBlank();
    RawOfStored([], KEY_AS_VALUE, [], KEY);
    NoTailAppends([], KEY_AS_VALUE, Render(Obj(new_)));
    AppendedToSome([], KEY_AS_VALUE, new_);
  }
}
