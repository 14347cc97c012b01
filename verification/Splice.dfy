/** Replacing the credential object inside a stored JSON text without touching the rest of it. */
module Splice {
  import opened Options
  import opened CText
  import opened JsonScan
  import opened JsonGrammar
  import opened JsonStrings

  const KEY: Text := "claudeAiOauth"

  function Needle(key: Text): Text {
    QUOTE + key + QUOTE
  }

  // ----- finding the value

  /** strstr: where needle first occurs at or after i. */
  function Strstr(s: Text, needle: Text, i: nat): (r: Option<nat>)
    requires i <= |s|
    ensures r.Some? ==> i <= r.value && At(s, r.value, needle)
    ensures r.Some? ==> forall k :: i <= k < r.value ==> !At(s, k, needle)
    ensures r.None? ==> forall k :: i <= k <= |s| ==> !At(s, k, needle)
    decreases |s| - i
  {
    if At(s, i, needle) then Some(i)
    else if i == |s| then None
    else Strstr(s, needle, i + 1)
  }

  /** Where the object ends that opens at v, counting braces alone. */
  function ObjectEnd(s: Text, v: nat): (r: Option<nat>)
    requires v < |s|
    ensures r.Some? ==> v < r.value <= |s|
  {
    var (e, depth) := Count(s, v + 1, 1, false);
    if depth == 0 then Some(e) else None
  }

  /** The object value that should follow a quoted key ending at i. */
  function SpanFrom(s: Text, i: nat): (r: Option<(nat, nat)>)
    requires i <= |s|
    ensures r.Some? ==> i < r.value.0 < r.value.1 <= |s|
  {
    var c := Skip(s, i);
    if c == |s| || s[c] != ':' then None
    else
      var v := Skip(s, c + 1);
      if v == |s| || s[v] != '{' then None
      else match ObjectEnd(s, v)
           case None => None
           case Some(e) => Some((v, e))
  }

  /** The object that follows the first textual occurrence of the quoted key. */
  function Span(s: Text, key: Text): (r: Option<(nat, nat)>)
    ensures r.Some? ==> r.value.0 < r.value.1 <= |s|
  {
    match Strstr(s, Needle(key), 0)
    case None => None
    case Some(p) => SpanFrom(s, p + |Needle(key)|)
  }

  /** What is left to count when the byte loop stands at p, inside a string or not. */
  ghost function Remaining(s: Text, p: nat, depth: nat, inString: bool, escaped: bool): (nat, nat)
    requires p <= |s|
  {
    if !inString then Count(s, p, depth, false)
    else
      var q := SkipString(s, if escaped && p < |s| then p + 1 else p);
      Count(s, Past(s, q, '"'), depth, false)
  }

  method FindObjectEnd(s: Text, v: nat) returns (r: Option<nat>)
    requires v < |s| && s[v] == '{'
    ensures r == ObjectEnd(s, v)
  {
    var depth, inString, escaped, p := 0, false, false, v;
    while p < |s|
      invariant v <= p <= |s|
      invariant p == v ==> depth == 0 && !inString && !escaped
      invariant p > v ==> depth > 0 && Remaining(s, p, depth, inString, escaped) == Count(s, v + 1, 1, false)
      invariant escaped ==> inString
    {
      var ch := s[p];
      if inString {
        if escaped {
          escaped := false;
        } else if ch == '\\' {
          escaped := true;
        } else if ch == '"' {
          inString := false;
        }
      } else if ch == '"' {
        inString := true;
      } else if ch == '{' {
        depth := depth + 1;
      } else if ch == '}' {
        depth := depth - 1;
        if depth == 0 {
          assert Count(s, p + 1, 0, false) == (p + 1, 0);
          return Some(p + 1);
        }
      }
      p := p + 1;
    }
    return None;
  }

  method FindJsonValueSpan(s: Text, key: Text) returns (r: Option<(nat, nat)>)
    ensures r == Span(s, key)
  {
    var at := Strstr(s, Needle(key), 0);
    if at.None? {
      return None;
    }
    var p := ScanSpace(s, at.value + |Needle(key)|);
    if p == |s| || s[p] != ':' {
      return None;
    }
    p := ScanSpace(s, p + 1);
    if p == |s| || s[p] != '{' {
      return None;
    }
    var e := FindObjectEnd(s, p);
    if e.None? {
      return None;
    }
    return Some((p, e.value));
  }

  // ----- replacing it

  /** A new text with nothing but the credential object in it. */
  function Created(new_: Text): Text {
    "{" + Needle(KEY) + COLON + new_ + "}"
  }

  /** The text with a member put before its last byte. */
  function Appended(storage: Text, new_: Text): Text
    requires storage != []
  {
    var n := |storage| - 1;
    storage[..n] + (if n > 1 then COMMA else []) + Needle(KEY) + COLON + new_ + "}"
  }

  function Spliced(storage: Text, span: (nat, nat), new_: Text): Text
    requires span.0 < span.1 <= |storage|
  {
    storage[..span.0] + new_ + storage[span.1..]
  }

  /** The stored text once the credential object is new_, for every shape of stored text. */
  function Replace(storage: Text, new_: Text): Text {
    if '{' !in storage then Created(new_)
    else match Span(storage, KEY)
         case Some(span) => Spliced(storage, span, new_)
         case None => if storage[|storage| - 1] != '}' then storage else Appended(storage, new_)
  }

  lemma {:induction false} CreatedIs(new_: Text)
    ensures Created(new_) == [] + "{\"claudeAiOauth\":" + new_ + ['}']
  {
    assert "{\"claudeAiOauth\":" == "{" + Needle(KEY) + COLON;
  }

  method CreateText(new_: Text) returns (out: seq<Octet>)
    ensures out == Created(new_)
  {
    hide Needle, KEY, COLON, Buf.Contents, Buf.Valid;
    CreatedIs(new_);
    var b := new Buf();
    b.Append("{\"claudeAiOauth\":");
    b.Append(new_);
    b.Char('}');
    out := b.Bytes();
  }

  method AppendMember(storage: Text, new_: Text) returns (out: seq<Octet>)
    requires storage != []
    ensures out == Appended(storage, new_)
  {
    KeyIsPlain();
    hide Buf.Valid, Buf.Contents, Needle, Quoted;
    var b := new Buf();
    var len := |storage|;
    b.Append(storage[..len - 1]);
    if len > 2 {
      b.Char(',');
    }
    assert b.Contents() == storage[..len - 1] + (if len > 2 then COMMA else []);
    BufJsonStr(b, KEY);
    b.Char(':');
    b.Append(new_);
    b.Char('}');
    out := b.Bytes();
  }

  method ReplaceOauthJson(storage: Text, new_: Text) returns (out: seq<Octet>)
    ensures out == Replace(storage, new_)
  {
    hide Span, Buf.Valid, Buf.Contents, Created, Appended;
    if '{' !in storage {
      out := CreateText(new_);
      return;
    }
    var span := FindJsonValueSpan(storage, KEY);
    if span.None? {
      if storage[|storage| - 1] == '}' {
        out := AppendMember(storage, new_);
      } else {
        out := storage;
      }
      return;
    }
    var b := new Buf();
    b.Append(storage[..span.value.0]);
    b.Append(new_);
    b.Append(storage[span.value.1..]);
    out := b.Bytes();
  }

  lemma {:induction false} KeyIsPlain()
    ensures Quoted(KEY) == Needle(KEY)
  {
    PlainEscapes(KEY, 0);
    assert KEY[0..] == KEY;
  }

  lemma {:induction false} PlainEscapes(t: Text, k: nat)
    requires k <= |t| && forall j :: 0 <= j < |t| ==> 'A' <= t[j] <= 'Z' || 'a' <= t[j] <= 'z' || t[j] == '_'
    ensures EscapeFrom(t, k) == t[k..]
    decreases |t| - k
  {
    hide Escape;
    if k < |t| {
      PlainEscape(t[k]);
      PlainEscapes(t, k + 1);
      assert t[k..] == [t[k]] + t[k + 1..];
    }
  }

  lemma {:induction false} PlainEscape(c: Byte)
    requires 'A' <= c <= 'Z' || 'a' <= c <= 'z' || c == '_'
    ensures Escape(c) == [c]
  {
  }

  // ----- lens laws, on every text in which an object is found

  ghost predicate SamePrefix(s: Text, t: Text, n: nat) {
    n <= |s| && n <= |t| && s[..n] == t[..n]
  }

  lemma {:induction false} StrstrUnique(s: Text, needle: Text, p: nat)
    requires At(s, p, needle) && forall k :: 0 <= k < p ==> !At(s, k, needle)
    ensures Strstr(s, needle, 0) == Some(p)
  {
    assert p <= |s|;
  }

  lemma {:induction false} AtSame(s: Text, t: Text, n: nat, k: nat, x: Text)
    requires SamePrefix(s, t, n) && k + |x| <= n
    ensures At(s, k, x) <==> At(t, k, x)
  {
    assert s[k..k + |x|] == s[..n][k..k + |x|];
    assert t[k..k + |x|] == t[..n][k..k + |x|];
  }

  /** The first occurrence stays the first when only what lies behind it changes. */
  lemma {:induction false} StrstrSame(s: Text, t: Text, n: nat, needle: Text, p: nat)
    requires SamePrefix(s, t, n) && Strstr(s, needle, 0) == Some(p) && p + |needle| <= n
    ensures Strstr(t, needle, 0) == Some(p)
  {
    hide SamePrefix;
    AtSame(s, t, n, p, needle);
    forall k | 0 <= k < p ensures !At(t, k, needle) {
      AtSame(s, t, n, k, needle);
    }
    hide At, Strstr;
    StrstrUnique(t, needle, p);
  }

  lemma {:induction false} SkipSame(s: Text, t: Text, n: nat, i: nat)
    requires SamePrefix(s, t, n) && i <= |s| && Skip(s, i) <= n < |t|
    requires Skip(s, i) == n ==> !IsSpace(t[n])
    ensures Skip(t, i) == Skip(s, i)
    decreases n - i
  {
    if i < n {
      assert s[i] == s[..n][i] && t[i] == t[..n][i];
      if IsSpace(s[i]) {
        SkipSame(s, t, n, i + 1);
      }
    }
  }

  /** A rendered object is closed by its own last brace. */
  lemma {:induction false} ObjectCloses(s: Text, v: nat, ms: Members)
    requires At(s, v, Render(Obj(ms))) && WellFormedMembers(ms)
    ensures v < |s| && s[v] == '{' && ObjectEnd(s, v) == Some(v + |Render(Obj(ms))|)
  {
    hide At, Count, WellFormedMembers, RenderMembers;
    AtBracketed(s, v, "{", RenderMembers(ms), "}");
    NestMembers(s, v + 1, ms, 1, false);
    NestCloses(s, v + 1, v + 1 + |RenderMembers(ms)|, false);
  }

  lemma {:induction false} SpanParts(s: Text, key: Text)
    requires Span(s, key).Some?
    ensures Strstr(s, Needle(key), 0).Some?
    ensures var i := Strstr(s, Needle(key), 0).value + |Needle(key)|; var v := Span(s, key).value.0;
            && i <= Skip(s, i) < v && s[Skip(s, i)] == ':' && Skip(s, Skip(s, i) + 1) == v && s[v] == '{'
            && ObjectEnd(s, v) == Some(Span(s, key).value.1)
  {
    hide Strstr, Skip, ObjectEnd;
  }

  lemma {:induction false} SplicedParts(s: Text, span: (nat, nat), new_: Text)
    requires span.0 < span.1 <= |s|
    ensures var t := Spliced(s, span, new_);
            && SamePrefix(s, t, span.0) && At(t, span.0, new_)
            && |t| == span.0 + |new_| + (|s| - span.1) && t[span.0 + |new_|..] == s[span.1..]
  {
  }

  /** Writing an object and looking for it finds what was written, at the same place. */
  lemma {:induction false} PutGet(s: Text, key: Text, ms: Members)
    requires Span(s, key).Some? && WellFormedMembers(ms)
    ensures var span := Span(s, key).value; var new_ := Render(Obj(ms)); var t := Spliced(s, span, new_);
            Span(t, key) == Some((span.0, span.0 + |new_|)) && At(t, span.0, new_)
  {
    hide *;
    SpanParts(s, key);
    var span := Span(s, key).value;
    var new_ := Render(Obj(ms));
    var t := Spliced(s, span, new_);
    var p := Strstr(s, Needle(key), 0).value;
    var c := Skip(s, p + |Needle(key)|);
    SplicedParts(s, span, new_);
    ObjectCloses(t, span.0, ms);
    StrstrSame(s, t, span.0, Needle(key), p);
    BraceIsNoSpace();
    SkipSame(s, t, span.0, p + |Needle(key)|);
    SameByte(s, t, span.0, c);
    SkipSame(s, t, span.0, c + 1);
    SpanFound(t, key, p, c, span.0, span.0 + |new_|);
  }

  lemma {:induction false} BraceIsNoSpace()
    ensures !IsSpace('{')
  {
  }

  lemma {:induction false} SameByte(s: Text, t: Text, n: nat, c: nat)
    requires SamePrefix(s, t, n) && c < n
    ensures c < |s| && c < |t| && t[c] == s[c]
  {
    assert s[..n][c] == t[..n][c];
  }

  lemma {:induction false} SpanFound(t: Text, key: Text, p: nat, c: nat, a: nat, e: nat)
    requires Strstr(t, Needle(key), 0) == Some(p)
    requires Skip(t, p + |Needle(key)|) == c < |t| && t[c] == ':'
    requires Skip(t, c + 1) == a < |t| && t[a] == '{' && ObjectEnd(t, a) == Some(e)
    ensures Span(t, key) == Some((a, e))
  {
    hide Strstr, Skip, ObjectEnd, Needle;
  }

  lemma {:induction false} SplicedTwice(s: Text, span: (nat, nat), x: Text, y: Text)
    requires span.0 < span.1 <= |s| && x != []
    ensures var t := Spliced(s, span, x);
            && t[..span.0] == s[..span.0] && span.0 + |x| <= |t| && t[span.0 + |x|..] == s[span.1..]
            && Spliced(t, (span.0, span.0 + |x|), y) == Spliced(s, span, y)
    ensures Spliced(s, span, s[span.0..span.1]) == s
  {
  }

  lemma {:induction false} ReplaceSplices(s: Text, new_: Text)
    requires Span(s, KEY).Some?
    ensures Replace(s, new_) == Spliced(s, Span(s, KEY).value, new_)
  {
    SpanParts(s, KEY);
    hide Span, ObjectEnd, Strstr, Skip;
    assert s[Span(s, KEY).value.0] in s;
  }

  /** The credential writer: what was written is found, all bytes around it are as they were, a second
      write leaves no trace of the first, and writing back what was there changes nothing. */
  lemma {:induction false} ReplaceIsALens(s: Text, ms: Members, ns: Members)
    requires Span(s, KEY).Some? && WellFormedMembers(ms)
    ensures var (a, b) := Span(s, KEY).value; var t := Replace(s, Render(Obj(ms)));
            && Span(t, KEY) == Some((a, a + |Render(Obj(ms))|)) && At(t, a, Render(Obj(ms)))
            && t[..a] == s[..a] && t[a + |Render(Obj(ms))|..] == s[b..]
            && Replace(t, Render(Obj(ns))) == Replace(s, Render(Obj(ns)))
            && Replace(s, s[a..b]) == s
  {
    hide *;
    var span := Span(s, KEY).value;
    var x, y := Render(Obj(ms)), Render(Obj(ns));
    var t := Spliced(s, span, x);
    ReplaceSplices(s, x);
    ReplaceSplices(s, y);
    ReplaceSplices(s, s[span.0..span.1]);
    PutGet(s, KEY, ms);
    FirstByteOfObject(ms);
    SplicedTwice(s, span, x, y);
    ReplaceSplices(t, y);
  }

  lemma {:induction false} FirstByteOfObject(ms: Members)
    ensures Render(Obj(ms)) != []
  {
  }

  // ----- agreement with the reader

  /** The first member named key, and where its name begins in the rendered members. */
  function Named(ms: Members, key: Text): (r: Option<(Member, nat)>)
    ensures r.Some? ==> r.value.0.key == key
  {
    match ms
    case NoMembers(_) => None
    case LastMember(m) => if m.key == key then Some((m, |m.pre|)) else None
    case MoreMembers(m, rest) =>
      if m.key == key then Some((m, |m.pre|))
      else match Named(rest, key)
           case None => None
           case Some((x, n)) => Some((x, |RenderMember(m)| + 1 + n))
  }

  /** The member that lookup finds, whole. */
  lemma {:induction false} NamedIsLookup(s: Text, i: nat, ms: Members, key: Text)
    requires At(s, i, RenderMembers(ms)) && WellFormedMembers(ms)
    ensures match Named(ms, key)
            case None => Lookup(ms, key) == None
            case Some((m, n)) =>
              && Lookup(ms, key) == Some((m.v, n + |RenderName(m)|))
              && At(s, i + n, RenderName(m)) && At(s, i + n + |RenderName(m)|, Render(m.v)) && WellFormedMember(m)
    decreases ms
  {
    hide At, RenderMember, RenderName, Render, WellFormedMember;
    match ms
    case NoMembers(pad) =>
    case LastMember(m) =>
      AtMember(s, i, m);
    case MoreMembers(m, rest) =>
      AtSplits(s, i, RenderMember(m) + COMMA, RenderMembers(rest));
      AtSplits(s, i, RenderMember(m), COMMA);
      AtMember(s, i, m);
      NamedIsLookup(s, i + |RenderMember(m)| + 1, rest, key);
  }

  lemma {:induction false} SkippedAreBlank(s: Text, i: nat)
    requires i <= |s|
    ensures forall k :: i <= k < Skip(s, i) ==> IsSpace(s[k])
    decreases |s| - i
  {
    if i < |s| && IsSpace(s[i]) {
      SkippedAreBlank(s, i + 1);
    }
  }

  /** Between a quoted key and the value that follows it there is no quote. */
  lemma {:induction false} NoQuoteBeforeValue(s: Text, key: Text, k: nat)
    requires Span(s, key).Some?
    requires Strstr(s, Needle(key), 0).value + |Needle(key)| <= k < Span(s, key).value.0
    ensures k < |s| && s[k] != '"'
  {
    SpanParts(s, key);
    var i := Strstr(s, Needle(key), 0).value + |Needle(key)|;
    hide Span, Strstr, ObjectEnd, Needle;
    SkippedAreBlank(s, i);
    SkippedAreBlank(s, Skip(s, i) + 1);
    QuoteIsNotSpace();
    hide Skip;
  }

  lemma {:induction false} NeedleQuotes(s: Text, key: Text, p: nat)
    requires At(s, p, Needle(key))
    ensures p + |key| + 1 < |s| && s[p] == '"' && s[p + |key| + 1] == '"' && |Needle(key)| == |key| + 2
  {
    AtByte(s, p, Needle(key), 0);
    AtByte(s, p, Needle(key), |key| + 1);
  }

  lemma {:induction false} NameStartsWithNeedle(s: Text, q: nat, m: Member)
    requires At(s, q, RenderName(m))
    ensures At(s, q, Needle(m.key)) && |RenderName(m)| > |Needle(m.key)|
  {
    AtName(s, q, m);
  }

  /** On an object text whose member of that name is an object: the span finder points at the very
      value that the reader returns exactly when the first textual occurrence of the quoted key is the
      name of that member, and not something inside an earlier value. */
  lemma {:induction false} SpanAgreesWithReader(s: Text, pad: Text, ms: Members, m: Member, n: nat, key: Text)
    requires IsObjectText(s, pad, ms) && Named(ms, key) == Some((m, n)) && m.v.Obj?
    ensures var q := |pad| + 1 + n; var v := q + |RenderName(m)|;
            && Raw(s, key) == Some(Render(m.v))
            && (Strstr(s, Needle(key), 0) == Some(q) ==> Span(s, key) == Some((v, v + |Render(m.v)|)))
            && (Span(s, key).Some? && Span(s, key).value.0 == v ==> Strstr(s, Needle(key), 0) == Some(q))
  {
    hide *;
    var q := |pad| + 1 + n;
    MembersAt(s, pad, ms);
    NamedIsLookup(s, |pad| + 1, ms, key);
    LookupInObject(s, pad, ms, key);
    NamedHasKey(ms, key);
    NameStartsWithNeedle(s, q, m);
    if Strstr(s, Needle(key), 0) == Some(q) {
      SpanAtName(s, q, m);
    }
    if Span(s, key).Some? && Span(s, key).value.0 == q + |RenderName(m)| {
      OnlyNameLeadsToValue(s, key, q, q + |RenderName(m)|);
    }
  }

  lemma {:induction false} NamedHasKey(ms: Members, key: Text)
    ensures Named(ms, key).Some? ==> Named(ms, key).value.0.key == key
  {
  }

  lemma {:induction false} MembersAt(s: Text, pad: Text, ms: Members)
    requires IsObjectText(s, pad, ms)
    ensures At(s, |pad| + 1, RenderMembers(ms)) && WellFormedMembers(ms)
  {
    ObjectOpens(s, pad, ms);
    hide At, RenderMembers;
    AtSplits(s, |pad| + 1, RenderMembers(ms), "}");
  }

  lemma {:induction false} OnlyNameLeadsToValue(s: Text, key: Text, q: nat, v: nat)
    requires Span(s, key).Some? && Span(s, key).value.0 == v
    requires At(s, q, Needle(key)) && q + |Needle(key)| < v
    ensures Strstr(s, Needle(key), 0) == Some(q)
  {
    SpanParts(s, key);
    var p := Strstr(s, Needle(key), 0).value;
    NeedleQuotes(s, key, p);
    NeedleQuotes(s, key, q);
    assert p <= q;
    hide At, Span, Strstr, Skip, ObjectEnd, Needle;
    if p < q {
      var k := if q >= p + |key| + 2 then q else q + |key| + 1;
      NoQuoteBeforeValue(s, key, k);
    }
  }

  lemma {:induction false} SpanAtName(s: Text, q: nat, m: Member)
    requires Strstr(s, Needle(m.key), 0) == Some(q) && WellFormedMember(m) && m.v.Obj?
    requires At(s, q, RenderName(m)) && At(s, q + |RenderName(m)|, Render(m.v))
    ensures var v := q + |RenderName(m)|; Span(s, m.key) == Some((v, v + |Render(m.v)|))
  {
    hide *;
    Marks();
    MemberParts(m);
    AtName(s, q, m);
    ObjectValue(m);
    var v := q + |RenderName(m)|;
    var i := q + |m.key| + 2;
    var c := i + |m.mid|;
    ObjectCloses(s, v, m.v.members);
    AtByte(s, c, COLON, 0);
    QuoteIsNotSpace();
    NeedleLength(m.key);
    SkipsBlank(s, i, m.mid);
    SkipsBlank(s, c + 1, m.lead);
    SpanFound(s, m.key, q, c, v, v + |Render(m.v)|);
  }

  lemma {:induction false} NeedleLength(key: Text)
    ensures |Needle(key)| == |key| + 2
  {
  }

  lemma {:induction false} ObjectValue(m: Member)
    requires WellFormedMember(m) && m.v.Obj?
    ensures m.v == Obj(m.v.members) && WellFormedMembers(m.v.members)
  {
  }

  // ----- reading back through the reader

  /** The members with the value of the first one named key exchanged. */
  function Set(ms: Members, key: Text, w: Json): Members {
    match ms
    case NoMembers(_) => ms
    case LastMember(m) => if m.key == key then LastMember(m.(v := w)) else ms
    case MoreMembers(m, rest) =>
      if m.key == key then MoreMembers(m.(v := w), rest) else MoreMembers(m, Set(rest, key, w))
  }

  function Exchanged(x: Text, i: nat, j: nat, y: Text): Text
    requires i <= j <= |x|
  {
    x[..i] + y + x[j..]
  }

  lemma {:induction false} ExchangeInside(a: Text, x: Text, b: Text, i: nat, j: nat, y: Text)
    requires i <= j <= |x|
    ensures Exchanged(a + x + b, |a| + i, |a| + j, y) == a + Exchanged(x, i, j, y) + b
  {
  }

  lemma {:induction false} ExchangeMember(m: Member, w: Json)
    ensures var v := |m.pre| + |RenderName(m)|;
            && v + |Render(m.v)| <= |RenderMember(m)|
            && RenderMember(m.(v := w)) == Exchanged(RenderMember(m), v, v + |Render(m.v)|, Render(w))
  {
    hide Render, RenderName;
    assert RenderName(m.(v := w)) == RenderName(m) by {
      SameName(m, w);
    }
    ExchangeInside(m.pre + RenderName(m), Render(m.v), m.post, 0, |Render(m.v)|, Render(w));
    assert Exchanged(Render(m.v), 0, |Render(m.v)|, Render(w)) == Render(w);
  }

  lemma {:induction false} SameName(m: Member, w: Json)
    ensures RenderName(m.(v := w)) == RenderName(m)
  {
  }

  /** Exchanging the value in the tree exchanges exactly its bytes in the text. */
  lemma {:induction false} ExchangeRenders(ms: Members, key: Text, w: Json)
    requires Named(ms, key).Some?
    ensures var (m, n) := Named(ms, key).value; var v := n + |RenderName(m)|;
            && v + |Render(m.v)| <= |RenderMembers(ms)|
            && RenderMembers(Set(ms, key, w)) == Exchanged(RenderMembers(ms), v, v + |Render(m.v)|, Render(w))
  {
    hide RenderMember, RenderName, Render, Exchanged;
    match ms
    case LastMember(m) =>
      ExchangeMember(m, w);
    case MoreMembers(m, rest) =>
      if m.key == key {
        ExchangeMember(m, w);
        var v := |m.pre| + |RenderName(m)|;
        ExchangeFront(RenderMember(m), COMMA + RenderMembers(rest), v, v + |Render(m.v)|, Render(w));
        assert RenderMembers(ms) == RenderMember(m) + (COMMA + RenderMembers(rest));
      } else {
        ExchangeRenders(rest, key, w);
        var (x, n) := Named(rest, key).value;
        var v := n + |RenderName(x)|;
        ExchangeBack(RenderMember(m) + COMMA, RenderMembers(rest), v, v + |Render(x.v)|, Render(w));
      }
  }

  lemma {:induction false} ExchangeFront(x: Text, b: Text, i: nat, j: nat, y: Text)
    requires i <= j <= |x|
    ensures Exchanged(x + b, i, j, y) == Exchanged(x, i, j, y) + b
  {
  }

  lemma {:induction false} ExchangeBack(a: Text, x: Text, i: nat, j: nat, y: Text)
    requires i <= j <= |x|
    ensures Exchanged(a + x, |a| + i, |a| + j, y) == a + Exchanged(x, i, j, y)
  {
  }

  lemma {:induction false} SetKeepsWellFormed(ms: Members, key: Text, w: Json)
    requires WellFormedMembers(ms) && WellFormed(w)
    ensures WellFormedMembers(Set(ms, key, w)) && (Set(ms, key, w).NoMembers? <==> ms.NoMembers?)
  {
    match ms
    case NoMembers(_) =>
    case LastMember(m) =>
    case MoreMembers(m, rest) =>
      SetKeepsWellFormed(rest, key, w);
  }

  function ValueOf(found: Option<(Json, nat)>): Option<Json> {
    match found
    case None => None
    case Some((v, _)) => Some(v)
  }

  /** In the exchanged members, key has the new value and every other name the value it had. */
  lemma {:induction false} LookupAfterSet(ms: Members, key: Text, w: Json, other: Text)
    requires Named(ms, key).Some?
    ensures ValueOf(Lookup(Set(ms, key, w), other)) == if other == key then Some(w) else ValueOf(Lookup(ms, other))
  {
    hide RenderMember, RenderName;
    match ms
    case LastMember(m) =>
    case MoreMembers(m, rest) =>
      if m.key != key {
        LookupAfterSet(rest, key, w, other);
      }
  }

  lemma {:induction false} ObjectTextIs(s: Text, pad: Text, ms: Members)
    requires IsObjectText(s, pad, ms)
    ensures |s| >= |pad| + |RenderMembers(ms)| + 2
    ensures s == pad + "{" + RenderMembers(ms) + "}" + s[|pad| + |RenderMembers(ms)| + 2..]
  {
    var x := pad + Render(Obj(ms));
    assert s == s[0..|x|] + s[|x|..];
  }

  lemma {:induction false} IsObjectTextOf(s: Text, pad: Text, ms: Members, rest: Text)
    requires Blank(pad) && WellFormedMembers(ms) && s == pad + "{" + RenderMembers(ms) + "}" + rest
    ensures IsObjectText(s, pad, ms)
  {
    var x := pad + Render(Obj(ms));
    assert s == x + rest;
    assert s[0..|x|] == x;
  }

  /** Splicing the bytes of the value is exchanging the value in the tree. */
  lemma {:induction false} SpliceIsSet(s: Text, pad: Text, ms: Members, key: Text, w: Json)
    requires IsObjectText(s, pad, ms) && Named(ms, key).Some? && WellFormed(w)
    ensures var (m, n) := Named(ms, key).value; var v := |pad| + 1 + n + |RenderName(m)|;
            && v + |Render(m.v)| <= |s|
            && IsObjectText(Exchanged(s, v, v + |Render(m.v)|, Render(w)), pad, Set(ms, key, w))
  {
    hide *;
    var (m, n) := Named(ms, key).value;
    var i := n + |RenderName(m)|;
    IsObjectMembers(s, pad, ms);
    ObjectPad(s, pad, ms);
    ObjectTextIs(s, pad, ms);
    var tail := s[|pad| + |RenderMembers(ms)| + 2..];
    ExchangeRenders(ms, key, w);
    SetKeepsWellFormed(ms, key, w);
    ExchangeInObject(pad, RenderMembers(ms), tail, i, i + |Render(m.v)|, Render(w));
    IsObjectTextOf(Exchanged(s, |pad| + 1 + i, |pad| + 1 + i + |Render(m.v)|, Render(w)), pad,
                   Set(ms, key, w), tail);
  }

  lemma {:induction false} ExchangeInObject(pad: Text, x: Text, tail: Text, i: nat, j: nat, y: Text)
    requires i <= j <= |x|
    ensures Exchanged(pad + "{" + x + "}" + tail, |pad| + 1 + i, |pad| + 1 + j, y)
            == pad + "{" + Exchanged(x, i, j, y) + "}" + tail
  {
    hide Exchanged;
    var head: Text := pad + "{";
    var back: Text := "}" + tail;
    assert pad + "{" + x + "}" + tail == head + x + back;
    ExchangeInside(head, x, back, i, j, y);
  }

  lemma {:induction false} ObjectPad(s: Text, pad: Text, ms: Members)
    requires IsObjectText(s, pad, ms)
    ensures Blank(pad)
  {
  }

  lemma {:induction false} RawIsValue(s: Text, pad: Text, ms: Members, key: Text)
    requires IsObjectText(s, pad, ms)
    ensures Raw(s, key) == match ValueOf(Lookup(ms, key)) case None => None case Some(v) => Some(Render(v))
  {
    hide IsObjectText, Render, Raw, Find, Lookup;
    LookupInObject(s, pad, ms, key);
  }

  /** Where the span finder and the reader agree: after the credential object has been replaced, the
      reader returns the new one, and every other member reads as it did. */
  lemma {:induction false} ReaderSeesReplacement(s: Text, pad: Text, ms: Members, m: Member, n: nat,
                                                 new_: Members, other: Text)
    requires IsObjectText(s, pad, ms) && Named(ms, KEY) == Some((m, n)) && m.v.Obj? && WellFormedMembers(new_)
    requires Strstr(s, Needle(KEY), 0) == Some(|pad| + 1 + n)
    ensures var t := Replace(s, Render(Obj(new_)));
            && Raw(t, KEY) == Some(Render(Obj(new_)))
            && (other != KEY ==> Raw(t, other) == Raw(s, other))
  {
    hide *;
    var w := Obj(new_);
    ObjectWellFormed(new_);
    var v := |pad| + 1 + n + |RenderName(m)|;
    SpanAgreesWithReader(s, pad, ms, m, n, KEY);
    ReplaceSplices(s, Render(w));
    SpliceIsSet(s, pad, ms, KEY, w);
    SplicedIsExchanged(s, (v, v + |Render(m.v)|), Render(w));
    var t := Replace(s, Render(w));
    RawIsValue(t, pad, Set(ms, KEY, w), KEY);
    RawIsValue(t, pad, Set(ms, KEY, w), other);
    RawIsValue(s, pad, ms, other);
    LookupAfterSet(ms, KEY, w, KEY);
    LookupAfterSet(ms, KEY, w, other);
  }

  lemma {:induction false} ObjectWellFormed(ms: Members)
    requires WellFormedMembers(ms)
    ensures WellFormed(Obj(ms))
  {
  }

  lemma {:induction false} SplicedIsExchanged(s: Text, span: (nat, nat), y: Text)
    requires span.0 < span.1 <= |s|
    ensures Spliced(s, span, y) == Exchanged(s, span.0, span.1, y)
  {
  }

  // ----- a text without the member

  function AddLast(ms: Members, m: Member): Members {
    match ms
    case NoMembers(_) => LastMember(m)
    case LastMember(x) => MoreMembers(x, LastMember(m))
    case MoreMembers(x, rest) => MoreMembers(x, AddLast(rest, m))
  }

  lemma {:induction false} AddLastRenders(ms: Members, m: Member)
    requires !ms.NoMembers? && WellFormedMembers(ms) && WellFormedMember(m)
    ensures RenderMembers(AddLast(ms, m)) == RenderMembers(ms) + COMMA + RenderMember(m)
    ensures WellFormedMembers(AddLast(ms, m)) && !AddLast(ms, m).NoMembers?
  {
    hide RenderMember, WellFormedMember;
    match ms
    case LastMember(x) =>
    case MoreMembers(x, rest) =>
      AddLastRenders(rest, m);
      assert RenderMembers(AddLast(ms, m)) == RenderMember(x) + COMMA + (RenderMembers(rest) + COMMA + RenderMember(m));
  }

  lemma {:induction false} LookupAdded(ms: Members, m: Member)
    requires Lookup(ms, m.key) == None
    ensures ValueOf(Lookup(AddLast(ms, m), m.key)) == Some(m.v)
  {
    hide RenderMember, RenderName;
    match ms
    case NoMembers(_) =>
    case LastMember(x) =>
    case MoreMembers(x, rest) =>
      LookupAdded(rest, m);
  }

  function Credential(new_: Members): Member {
    Bare(KEY, Obj(new_))
  }

  lemma {:induction false} CredentialRenders(new_: Members)
    ensures RenderMember(Credential(new_)) == Needle(KEY) + COLON + Render(Obj(new_))
  {
    hide Render;
  }

  lemma {:induction false} KeyIsBody()
    ensures StringBody(KEY)
  {
    PlainBody(KEY);
  }

  lemma {:induction false} CredentialWellFormed(new_: Members)
    requires WellFormedMembers(new_)
    ensures WellFormedMember(Credential(new_))
  {
    hide StringBody, WellFormed, WellFormedMembers, WellFormedMember, Bare, KEY;
    KeyIsBody();
    ObjectWellFormed(new_);
    BareWellFormed(KEY, Obj(new_));
  }

  lemma {:induction false} PlainBody(t: Text)
    requires forall j :: 0 <= j < |t| ==> t[j] != '"' && t[j] != '\\'
    ensures StringBody(t)
  {
    if t != [] {
      PlainBody(t[1..]);
    }
  }

  lemma {:induction false} AppendsToMembers(pad: Text, ms: Members, new_: Members)
    requires Blank(pad) && WellFormedMembers(ms) && WellFormedMembers(new_) && !ms.NoMembers?
    ensures var s: Text := pad + "{" + RenderMembers(ms) + "}";
            IsObjectText(Appended(s, Render(Obj(new_))), pad, AddLast(ms, Credential(new_)))
  {
    hide *;
    CredentialWellFormed(new_);
    CredentialRenders(new_);
    AddLastRenders(ms, Credential(new_));
    SomeMembersRender(ms);
    var s: Text := pad + "{" + RenderMembers(ms) + "}";
    AppendedText(pad, RenderMembers(ms), Render(Obj(new_)));
    IsObjectTextOf(Appended(s, Render(Obj(new_))), pad, AddLast(ms, Credential(new_)), []);
  }

  lemma {:induction false} AppendedText(pad: Text, x: Text, new_: Text)
    requires |x| >= 1
    ensures Appended(pad + "{" + x + "}", new_)
            == pad + "{" + (x + COMMA + (Needle(KEY) + COLON + new_)) + "}" + []
  {
    hide Needle;
    var s: Text := pad + "{" + x + "}";
    assert s[..|s| - 1] == pad + "{" + x;
  }

  lemma {:induction false} SomeMembersRender(ms: Members)
    requires !ms.NoMembers?
    ensures |RenderMembers(ms)| >= 1
  {
    hide Render;
    assert forall m: Member :: |RenderName(m)| >= 1;
  }

  lemma {:induction false} CommaFirstReadsNothing(t: Text, pad: Text, blank: Text, key: Text)
    requires Blank(pad) && Blank(blank) && At(t, 0, pad + "{" + blank + COMMA)
    ensures Find(t, key) == None
  {
    AtSplits(t, 0, pad + "{" + blank, COMMA);
    AtSplits(t, 0, pad + "{", blank);
    AtSplits(t, 0, pad, "{");
    AtByte(t, |pad|, "{", 0);
    AtByte(t, |pad| + 1 + |blank|, COMMA, 0);
    QuoteIsNotSpace();
    hide At, Blank, IsSpace;
    SkipsBlank(t, 0, pad);
    SkipsBlank(t, |pad| + 1, blank);
    hide Skip;
  }

  lemma {:induction false} BlankObjectGetsComma(pad: Text, blank: Text, new_: Text)
    requires |pad| + |blank| > 0
    ensures var s: Text := pad + "{" + blank + "}"; At(Appended(s, new_), 0, pad + "{" + blank + COMMA)
  {
    var s: Text := pad + "{" + blank + "}";
    var front: Text := pad + "{" + blank + COMMA;
    assert s[..|s| - 1] == pad + "{" + blank;
    assert Appended(s, new_) == front + (Needle(KEY) + COLON + new_ + "}");
  }

  lemma {:induction false} EmptyObjectGetsMember(new_: Members)
    requires WellFormedMembers(new_)
    ensures IsObjectText(Appended("{}", Render(Obj(new_))), [], LastMember(Credential(new_)))
  {
    CredentialWellFormed(new_);
    CredentialRenders(new_);
    OnlyMemberText(Credential(new_));
    hide *;
    AppendedToEmpty(Render(Obj(new_)));
    IsObjectTextOf(Appended("{}", Render(Obj(new_))), [], LastMember(Credential(new_)), []);
  }

  lemma {:induction false} AppendedToEmpty(new_: Text)
    ensures Appended("{}", new_) == [] + "{" + (Needle(KEY) + COLON + new_) + "}" + []
  {
    hide Needle;
    assert "{}"[..1] == "{";
  }

  lemma {:induction false} OnlyMemberText(m: Member)
    requires WellFormedMember(m)
    ensures RenderMembers(LastMember(m)) == RenderMember(m) && WellFormedMembers(LastMember(m)) && Blank([])
  {
  }

  /** A member that is there already keeps its value when another of its name is added behind it. */
  lemma {:induction false} LookupNotAdded(ms: Members, m: Member)
    requires Lookup(ms, m.key) != None
    ensures ValueOf(Lookup(AddLast(ms, m), m.key)) == ValueOf(Lookup(ms, m.key))
  {
    hide RenderMember, RenderName;
    match ms
    case LastMember(x) =>
    case MoreMembers(x, rest) =>
      if x.key != m.key {
        LookupNotAdded(rest, m);
      }
  }

  lemma {:induction false} AppendedToBlank(pad: Text, ms: Members, new_: Members)
    requires Blank(pad) && WellFormedMembers(ms) && ms.NoMembers? && |pad| + |ms.pad| > 0
    ensures Raw(Appended(pad + "{" + RenderMembers(ms) + "}", Render(Obj(new_))), KEY) == None
  {
    hide Render, Raw, Appended, Find;
    BlankObjectGetsComma(pad, ms.pad, Render(Obj(new_)));
    var t := Appended(pad + "{" + RenderMembers(ms) + "}", Render(Obj(new_)));
    CommaFirstReadsNothing(t, pad, ms.pad, KEY);
    NothingFoundIsNone(t, KEY);
  }

  lemma {:induction false} AppendedToNothing(ms: Members, new_: Members)
    requires WellFormedMembers(new_)
    ensures Raw(Appended("{}", Render(Obj(new_))), KEY) == Some(Render(Obj(new_)))
  {
    hide *;
    var m := Credential(new_);
    EmptyObjectGetsMember(new_);
    NoneNamed([]);
    CredentialIs(new_);
    LookupAdded(NoMembers([]), m);
    LastOnly(NoMembers([]), m);
    RawIsValue(Appended("{}", Render(Obj(new_))), [], LastMember(m), KEY);
  }

  lemma {:induction false} NoneNamed(pad: Text)
    ensures Lookup(NoMembers(pad), KEY) == None && NoMembers(pad).NoMembers?
  {
  }

  lemma {:induction false} CredentialIs(new_: Members)
    ensures Credential(new_).key == KEY && Credential(new_).v == Obj(new_)
  {
  }

  lemma {:induction false} AppendedToSome(pad: Text, ms: Members, new_: Members)
    requires Blank(pad) && WellFormedMembers(ms) && WellFormedMembers(new_) && !ms.NoMembers?
    ensures Raw(Appended(pad + "{" + RenderMembers(ms) + "}", Render(Obj(new_))), KEY)
            == match ValueOf(Lookup(ms, KEY)) case None => Some(Render(Obj(new_))) case Some(v) => Some(Render(v))
  {
    hide Render, Raw, Appended, RenderMembers, IsObjectText, AddLast, Lookup, WellFormedMembers, KEY, Blank;
    var m := Credential(new_);
    AppendsToMembers(pad, ms, new_);
    RawIsValue(Appended(pad + "{" + RenderMembers(ms) + "}", Render(Obj(new_))), pad, AddLast(ms, m), KEY);
    if Lookup(ms, KEY) == None {
      LookupAdded(ms, m);
    } else {
      LookupNotAdded(ms, m);
    }
  }

  /** After a member has been appended to an object, the reader finds the new credential when there was no such
      member and the object has members or is written as the two bytes {}, and else what it found before. Blank
      space in an empty object makes the writer put a comma first, and the result is no longer an object; a
      member of that name that holds no object stays the first of its name. */
  lemma {:induction false} ReaderAfterAppend(pad: Text, ms: Members, new_: Members)
    requires Blank(pad) && WellFormedMembers(ms) && WellFormedMembers(new_)
    ensures var s: Text := pad + "{" + RenderMembers(ms) + "}"; var r := Render(Obj(new_));
            Raw(Appended(s, r), KEY)
            == if Lookup(ms, KEY) == None && (!ms.NoMembers? || s == "{}") then Some(r) else Raw(s, KEY)
  {
    hide Render, Raw, Appended, IsObjectText, KEY, Lookup, RenderMembers, Blank, WellFormedMembers;
    var s: Text := pad + "{" + RenderMembers(ms) + "}";
    ObjectTextHere(pad, ms);
    RawIsValue(s, pad, ms, KEY);
    if !ms.NoMembers? {
      AppendedToSome(pad, ms, new_);
    } else {
      NoneNamed(ms.pad);
      EmptyTextWhen(pad, ms);
      if s == "{}" {
        AppendedToNothing(ms, new_);
      } else {
        AppendedToBlank(pad, ms, new_);
      }
    }
  }

  lemma {:induction false} EmptyTextWhen(pad: Text, ms: Members)
    requires ms.NoMembers?
    ensures (|pad| + |ms.pad| == 0) == (pad + "{" + RenderMembers(ms) + "}" == "{}")
  {
    var s: Text := pad + "{" + RenderMembers(ms) + "}";
    assert s == pad + "{" + ms.pad + "}" && |s| == |pad| + |ms.pad| + 2;
    if |pad| + |ms.pad| == 0 {
      assert s[0] == '{' && s[1] == '}';
    }
  }

  lemma {:induction false} ObjectTextHere(pad: Text, ms: Members)
    requires Blank(pad) && WellFormedMembers(ms)
    ensures IsObjectText(pad + "{" + RenderMembers(ms) + "}", pad, ms)
  {
    hide *;
    var s: Text := pad + "{" + RenderMembers(ms) + "}";
    assert s + [] == s;
    IsObjectTextOf(s, pad, ms, []);
  }

  lemma {:induction false} NothingFoundIsNone(t: Text, key: Text)
    requires Find(t, key) == None
    ensures Raw(t, key) == None
  {
    hide Find;
  }

  lemma {:induction false} LastOnly(ms: Members, m: Member)
    requires ms.NoMembers?
    ensures AddLast(ms, m) == LastMember(m)
  {
  }
}
