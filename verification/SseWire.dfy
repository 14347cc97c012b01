/** A server that writes events as JSON lines, and the client that reads them back. */
module SseWire {
  import opened Options
  import opened CText
  import opened JsonGrammar
  import opened JsonStrings
  import opened Sse
  import opened SseBlocks
  import P = Protocol
  import Splice

  // ----- objects from lists of fields

  datatype Field = Field(key: Text, v: Json)

  function Fields(fs: seq<Field>): Members {
    if fs == [] then NoMembers([])
    else if |fs| == 1 then LastMember(Bare(fs[0].key, fs[0].v))
    else MoreMembers(Bare(fs[0].key, fs[0].v), Fields(fs[1..]))
  }

  function Object(fs: seq<Field>): Json {
    Obj(Fields(fs))
  }

  function Quotation(t: Text): Json {
    Str(EscapeFrom(t, 0))
  }

  /** A field for a string that there may be. */
  function Maybe(key: Text, t: Option<Text>): seq<Field> {
    match t
    case None => []
    case Some(x) => [Field(key, Quotation(x))]
  }

  // ----- the server

  /** The event as the server writes it. */
  function EventFields(e: Event): seq<Field> {
    match e
    case Start(kind, name, id) =>
      [Field(P.TYPE, Quotation(P.BLOCK_START)),
       Field(P.CONTENT_BLOCK, Object(Maybe(P.TYPE, kind) + Maybe(P.NAME, name) + Maybe(P.ID, id)))]
    case TextAdded(t) =>
      [Field(P.TYPE, Quotation(P.BLOCK_DELTA)),
       Field(P.DELTA, Object([Field(P.TYPE, Quotation(P.TEXT_DELTA)), Field(P.TEXT, Quotation(t))]))]
    case InputAdded(t) =>
      [Field(P.TYPE, Quotation(P.BLOCK_DELTA)),
       Field(P.DELTA, Object([Field(P.TYPE, Quotation(P.INPUT_JSON_DELTA)), Field(P.PARTIAL_JSON, Quotation(t))]))]
    case Stop => [Field(P.TYPE, Quotation(P.BLOCK_STOP))]
    case Stopping(reason) =>
      [Field(P.TYPE, Quotation(P.MESSAGE_DELTA)), Field(P.DELTA, Object(Maybe(P.STOP_REASON, reason)))]
    case Failed(None) => [Field(P.TYPE, Quotation(P.ERROR))]
    case Failed(Some(message)) =>
      [Field(P.TYPE, Quotation(P.ERROR)), Field(P.ERROR, Object(Maybe(P.MESSAGE, message)))]
    case Noise => [Field(P.TYPE, Quotation(P.PING))]
  }

  function EventText(e: Event): Text {
    Render(Object(EventFields(e)))
  }

  const NEWLINE: Text := "\n"

  /** One event on the wire: a line with a title, a line with its data, and an empty line. */
  function WireOf(title: Text, e: Event): Text {
    P.EVENT + title + NEWLINE + (P.DATA + EventText(e) + NEWLINE) + NEWLINE
  }

  function Wire(title: Text, es: seq<Event>): Text {
    if es == [] then [] else Wire(title, es[..|es| - 1]) + WireOf(title, es[|es| - 1])
  }

  // ----- names

  predicate IsName(key: Text) {
    forall k :: 0 <= k < |key| ==> 'a' <= key[k] <= 'z' || key[k] == '_'
  }

  lemma {:induction false} NamesAre()
    ensures IsName(P.TYPE) && IsName(P.CONTENT_BLOCK) && IsName(P.DELTA) && IsName(P.ERROR) && IsName(P.NAME)
    ensures IsName(P.ID) && IsName(P.TEXT) && IsName(P.PARTIAL_JSON) && IsName(P.STOP_REASON) && IsName(P.MESSAGE)
  {
  }

  lemma {:induction false} NamesDiffer()
    ensures P.TYPE != P.CONTENT_BLOCK && P.TYPE != P.DELTA && P.TYPE != P.ERROR && P.TYPE != P.TEXT
    ensures P.TYPE != P.PARTIAL_JSON && P.TYPE != P.NAME && P.TYPE != P.ID && P.NAME != P.ID
  {
    assert |P.TYPE| == |P.TEXT| == |P.NAME| == 4 && |P.ID| == 2 && |P.DELTA| == 5 && |P.ERROR| == 5;
    assert |P.CONTENT_BLOCK| == 13 && |P.PARTIAL_JSON| == 12;
    assert P.TYPE[1] == 'y' && P.TEXT[1] == 'e' && P.NAME[1] == 'a';
  }

  lemma {:induction false} PingIsNoKind()
    ensures NoKindName(P.PING)
  {
    assert |P.PING| == 4 && |P.BLOCK_START| == 19 && |P.BLOCK_DELTA| == 19 && |P.BLOCK_STOP| == 18;
    assert |P.MESSAGE_DELTA| == 13 && |P.ERROR| == 5;
  }

  // ----- well-formed, and all on one line

  predicate OneLine(t: seq<Octet>) {
    forall k :: 0 <= k < |t| ==> t[k] != '\n' && t[k] != '\r'
  }

  lemma {:induction false} OneLineJoins(a: seq<Octet>, b: seq<Octet>)
    ensures OneLine(a + b) <==> OneLine(a) && OneLine(b)
  {
    var s := a + b;
    if OneLine(s) {
      forall k | 0 <= k < |a| ensures a[k] != '\n' && a[k] != '\r' {
        assert s[k] == a[k];
      }
      forall k | 0 <= k < |b| ensures b[k] != '\n' && b[k] != '\r' {
        assert s[|a| + k] == b[k];
      }
    }
  }

  lemma {:induction false} EscapeOnOneLine(c: Byte)
    ensures OneLine(Escape(c))
  {
  }

  lemma {:induction false} EscapedOnOneLine(t: Text, k: nat)
    requires k <= |t|
    ensures OneLine(EscapeFrom(t, k))
    decreases |t| - k
  {
    hide Escape, OneLine;
    if k < |t| {
      EscapeOnOneLine(t[k]);
      EscapedOnOneLine(t, k + 1);
      OneLineJoins(Escape(t[k]), EscapeFrom(t, k + 1));
    } else {
      NothingOnOneLine();
    }
  }

  lemma {:induction false} NothingOnOneLine()
    ensures OneLine([])
  {
  }

  predicate Good(v: Json) {
    WellFormed(v) && OneLine(Render(v))
  }

  lemma {:induction false} QuotationIsGood(t: Text)
    ensures Good(Quotation(t))
  {
    hide StringBody, EscapeFrom, PiecesFor, RenderPieces, Meaning, ValidPieces;
    EmitterWritesPieces(t, 0);
    assert PiecesFor(t)[0..] == PiecesFor(t);
    PiecesAreBody(PiecesFor(t));
    EscapedOnOneLine(t, 0);
    assert OneLine(QUOTE);
    hide OneLine;
    OneLineJoins(QUOTE, EscapeFrom(t, 0));
    OneLineJoins(QUOTE + EscapeFrom(t, 0), QUOTE);
  }

  predicate GoodFields(fs: seq<Field>) {
    forall k :: 0 <= k < |fs| ==> IsName(fs[k].key) && Good(fs[k].v)
  }

  lemma {:induction false} NameIsGood(key: Text)
    requires IsName(key)
    ensures StringBody(key) && OneLine(key)
  {
    Splice.PlainBody(key);
  }

  lemma {:induction false} BareIsGood(key: Text, v: Json)
    requires IsName(key) && Good(v)
    ensures WellFormedMember(Bare(key, v)) && OneLine(RenderMember(Bare(key, v)))
  {
    NameIsGood(key);
    BareWellFormed(key, v);
    BareRenders(key, v);
    assert OneLine(QUOTE) && OneLine(COLON);
    hide OneLine, StringBody, WellFormed, Render, WellFormedMember, RenderMember, Bare;
    OneLineJoins(QUOTE, key);
    OneLineJoins(QUOTE + key, QUOTE);
    OneLineJoins(QUOTE + key + QUOTE, COLON);
    OneLineJoins(QUOTE + key + QUOTE + COLON, Render(v));
  }

  lemma {:induction false} FieldsAreGood(fs: seq<Field>)
    requires GoodFields(fs)
    ensures WellFormedMembers(Fields(fs)) && OneLine(RenderMembers(Fields(fs)))
    ensures fs != [] ==> !Fields(fs).NoMembers?
  {
    if fs != [] {
      BareIsGood(fs[0].key, fs[0].v);
      if |fs| > 1 {
        FieldsAreGood(fs[1..]);
        assert OneLine(COMMA);
        hide OneLine, WellFormedMember, RenderMember, Bare, Good, IsName;
        OneLineJoins(RenderMember(Bare(fs[0].key, fs[0].v)), COMMA);
        OneLineJoins(RenderMember(Bare(fs[0].key, fs[0].v)) + COMMA, RenderMembers(Fields(fs[1..])));
      }
    }
  }

  lemma {:induction false} ObjectIsGood(fs: seq<Field>)
    requires GoodFields(fs)
    ensures Good(Object(fs)) && WellFormedMembers(Fields(fs))
  {
    FieldsAreGood(fs);
    assert OneLine("{") && OneLine("}");
    hide OneLine, Fields, RenderMembers, WellFormedMembers, GoodFields;
    OneLineJoins("{", RenderMembers(Fields(fs)));
    OneLineJoins("{" + RenderMembers(Fields(fs)), "}");
  }

  lemma {:induction false} MaybeIsGood(key: Text, t: Option<Text>)
    requires IsName(key)
    ensures GoodFields(Maybe(key, t))
  {
    hide Good, IsName;
    if t.Some? {
      QuotationIsGood(t.value);
    }
  }

  lemma {:induction false} GoodJoins(a: seq<Field>, b: seq<Field>)
    requires GoodFields(a) && GoodFields(b)
    ensures GoodFields(a + b)
  {
    hide Good, IsName;
  }

  lemma {:induction false} OneField(key: Text, v: Json)
    requires IsName(key) && Good(v)
    ensures GoodFields([Field(key, v)])
  {
    hide Good, IsName;
  }

  lemma {:induction false} TwoFields(a: Text, x: Json, b: Text, y: Json)
    requires IsName(a) && Good(x) && IsName(b) && Good(y)
    ensures GoodFields([Field(a, x), Field(b, y)])
  {
    hide Good, IsName;
  }

  lemma {:induction false} EventIsGood(e: Event)
    ensures GoodFields(EventFields(e))
  {
    hide Good, IsName, Quotation, Object, GoodFields;
    NamesAre();
    match e
    case Start(kind, name, id) =>
      MaybeIsGood(P.TYPE, kind);
      MaybeIsGood(P.NAME, name);
      MaybeIsGood(P.ID, id);
      GoodJoins(Maybe(P.TYPE, kind), Maybe(P.NAME, name));
      GoodJoins(Maybe(P.TYPE, kind) + Maybe(P.NAME, name), Maybe(P.ID, id));
      Outer(P.BLOCK_START, P.CONTENT_BLOCK, Maybe(P.TYPE, kind) + Maybe(P.NAME, name) + Maybe(P.ID, id));
    case TextAdded(t) =>
      Inside(P.TEXT_DELTA, P.TEXT, t);
      Outer(P.BLOCK_DELTA, P.DELTA, [Field(P.TYPE, Quotation(P.TEXT_DELTA)), Field(P.TEXT, Quotation(t))]);
    case InputAdded(t) =>
      Inside(P.INPUT_JSON_DELTA, P.PARTIAL_JSON, t);
      Outer(P.BLOCK_DELTA, P.DELTA,
            [Field(P.TYPE, Quotation(P.INPUT_JSON_DELTA)), Field(P.PARTIAL_JSON, Quotation(t))]);
    case Stop =>
      QuotationIsGood(P.BLOCK_STOP);
      OneField(P.TYPE, Quotation(P.BLOCK_STOP));
    case Stopping(reason) =>
      MaybeIsGood(P.STOP_REASON, reason);
      Outer(P.MESSAGE_DELTA, P.DELTA, Maybe(P.STOP_REASON, reason));
    case Failed(None) =>
      QuotationIsGood(P.ERROR);
      OneField(P.TYPE, Quotation(P.ERROR));
    case Failed(Some(message)) =>
      MaybeIsGood(P.MESSAGE, message);
      Outer(P.ERROR, P.ERROR, Maybe(P.MESSAGE, message));
    case Noise =>
      QuotationIsGood(P.PING);
      OneField(P.TYPE, Quotation(P.PING));
  }

  lemma {:induction false} Outer(kind: Text, key: Text, fs: seq<Field>)
    requires IsName(key) && GoodFields(fs)
    ensures GoodFields([Field(P.TYPE, Quotation(kind)), Field(key, Object(fs))])
  {
    hide Good, IsName, Quotation, Object, GoodFields;
    NamesAre();
    QuotationIsGood(kind);
    ObjectIsGood(fs);
    TwoFields(P.TYPE, Quotation(kind), key, Object(fs));
  }

  lemma {:induction false} Inside(kind: Text, key: Text, t: Text)
    requires IsName(key)
    ensures GoodFields([Field(P.TYPE, Quotation(kind)), Field(key, Quotation(t))])
  {
    hide Good, IsName, Quotation, GoodFields;
    NamesAre();
    QuotationIsGood(kind);
    QuotationIsGood(t);
    TwoFields(P.TYPE, Quotation(kind), key, Quotation(t));
  }

  // ----- what the fields say

  lemma {:induction false} FieldFound(fs: seq<Field>, j: nat)
    requires j < |fs| && forall i :: 0 <= i < j ==> fs[i].key != fs[j].key
    ensures Lookup(Fields(fs), fs[j].key).Some? && Lookup(Fields(fs), fs[j].key).value.0 == fs[j].v
    decreases j
  {
    hide RenderMember, RenderName;
    if j > 0 {
      FieldFound(fs[1..], j - 1);
    }
  }

  lemma {:induction false} FieldMissing(fs: seq<Field>, key: Text)
    requires forall i :: 0 <= i < |fs| ==> fs[i].key != key
    ensures HasNone(Fields(fs), key)
  {
    hide RenderMember, RenderName;
    if |fs| > 1 {
      FieldMissing(fs[1..], key);
    }
  }

  lemma {:induction false} QuotationSays(ms: Members, key: Text, t: Text)
    requires Lookup(ms, key).Some? && Lookup(ms, key).value.0 == Quotation(t)
    ensures Says(ms, key, Some(t))
  {
    hide Lookup, EscapeFrom, PiecesFor, RenderPieces, Meaning, ValidPieces, CString;
    EmitterWritesPieces(t, 0);
    assert PiecesFor(t)[0..] == PiecesFor(t) && t[0..] == t;
    NoZeroIsWhole(t);
    assert '\0' !in t;
    assert IsSpelling(PiecesFor(t), EscapeFrom(t, 0), t);
  }

  lemma {:induction false} MissingSays(ms: Members, key: Text)
    requires HasNone(ms, key)
    ensures Says(ms, key, None)
  {
  }

  lemma {:induction false} FieldSays(fs: seq<Field>, j: nat, t: Text)
    requires j < |fs| && (forall i :: 0 <= i < j ==> fs[i].key != fs[j].key) && fs[j].v == Quotation(t)
    ensures Says(Fields(fs), fs[j].key, Some(t))
  {
    hide Lookup, Quotation, Fields, Says;
    FieldFound(fs, j);
    QuotationSays(Fields(fs), fs[j].key, t);
  }

  lemma {:induction false} FieldHasObject(fs: seq<Field>, j: nat, inner: seq<Field>)
    requires j < |fs| && (forall i :: 0 <= i < j ==> fs[i].key != fs[j].key) && fs[j].v == Object(inner)
    ensures HasObject(Fields(fs), fs[j].key, Fields(inner))
  {
    hide Lookup, Fields;
    FieldFound(fs, j);
  }

  /** In a list of optional strings with different names each says what it should. */
  lemma {:induction false} MaybesSay(kind: Option<Text>, name: Option<Text>, id: Option<Text>)
    ensures var ms := Fields(Maybe(P.TYPE, kind) + Maybe(P.NAME, name) + Maybe(P.ID, id));
            Says(ms, P.TYPE, kind) && Says(ms, P.NAME, name) && Says(ms, P.ID, id)
  {
    NamesDiffer();
    hide Says, Fields, Quotation, P.TYPE, P.NAME, P.ID;
    var a, b, c := Maybe(P.TYPE, kind), Maybe(P.NAME, name), Maybe(P.ID, id);
    MaybeSays([], P.TYPE, kind, b + c);
    MaybeSays(a, P.NAME, name, c);
    MaybeSays(a + b, P.ID, id, []);
    assert [] + a + (b + c) == a + b + c && a + b + c + [] == a + b + c;
  }

  predicate NoField(fs: seq<Field>, key: Text) {
    forall i :: 0 <= i < |fs| ==> fs[i].key != key
  }

  lemma {:induction false} MaybeSays(before: seq<Field>, key: Text, t: Option<Text>, after: seq<Field>)
    requires NoField(before, key) && NoField(after, key)
    ensures Says(Fields(before + Maybe(key, t) + after), key, t)
  {
    hide Says, Fields, Quotation;
    var fs := before + Maybe(key, t) + after;
    match t
    case None =>
      forall i | 0 <= i < |fs| ensures fs[i].key != key {
        assert fs[i] == if i < |before| then before[i] else after[i - |before|];
      }
      FieldMissing(fs, key);
      MissingSays(Fields(fs), key);
    case Some(x) =>
      assert fs[|before|] == Field(key, Quotation(x));
      FieldSays(fs, |before|, x);
  }

  lemma {:induction false} OneMaybeSays(key: Text, t: Option<Text>)
    ensures Says(Fields(Maybe(key, t)), key, t)
  {
    hide Says, Fields, Quotation;
    MaybeSays([], key, t, []);
    assert [] + Maybe(key, t) + [] == Maybe(key, t);
  }

  lemma {:induction false} DeltaSays(kind: Text, key: Text, t: Text)
    requires P.TYPE != key
    ensures var ms := Fields([Field(P.TYPE, Quotation(kind)), Field(key, Quotation(t))]);
            Says(ms, P.TYPE, Some(kind)) && Says(ms, key, Some(t))
  {
    hide Says, Fields, Quotation;
    var fs := [Field(P.TYPE, Quotation(kind)), Field(key, Quotation(t))];
    FieldSays(fs, 0, kind);
    FieldSays(fs, 1, t);
  }

  lemma {:induction false} OuterSays(kind: Text, key: Text, inner: seq<Field>)
    requires P.TYPE != key
    ensures var ms := Fields([Field(P.TYPE, Quotation(kind)), Field(key, Object(inner))]);
            Says(ms, P.TYPE, Some(kind)) && HasObject(ms, key, Fields(inner))
  {
    hide Says, Fields, Quotation, Object, HasObject;
    var fs := [Field(P.TYPE, Quotation(kind)), Field(key, Object(inner))];
    FieldSays(fs, 0, kind);
    FieldHasObject(fs, 1, inner);
  }

  lemma {:induction false} AloneSays(kind: Text)
    ensures Says(Fields([Field(P.TYPE, Quotation(kind))]), P.TYPE, Some(kind))
  {
    hide Says, Fields, Quotation;
    FieldSays([Field(P.TYPE, Quotation(kind))], 0, kind);
  }

  /** What the server writes says the event. */
  lemma {:induction false} WrittenTells(e: Event)
    ensures Tells(Fields(EventFields(e)), e)
  {
    NamesDiffer();
    hide Says, Fields, Quotation, Object, HasObject, Lookup, NoKindName, Maybe;
    match e
    case Start(kind, name, id) =>
      OuterSays(P.BLOCK_START, P.CONTENT_BLOCK, Maybe(P.TYPE, kind) + Maybe(P.NAME, name) + Maybe(P.ID, id));
      MaybesSay(kind, name, id);
    case TextAdded(t) =>
      OuterSays(P.BLOCK_DELTA, P.DELTA, [Field(P.TYPE, Quotation(P.TEXT_DELTA)), Field(P.TEXT, Quotation(t))]);
      DeltaSays(P.TEXT_DELTA, P.TEXT, t);
    case InputAdded(t) =>
      OuterSays(P.BLOCK_DELTA, P.DELTA,
                [Field(P.TYPE, Quotation(P.INPUT_JSON_DELTA)), Field(P.PARTIAL_JSON, Quotation(t))]);
      DeltaSays(P.INPUT_JSON_DELTA, P.PARTIAL_JSON, t);
    case Stop =>
      AloneSays(P.BLOCK_STOP);
    case Stopping(reason) =>
      OuterSays(P.MESSAGE_DELTA, P.DELTA, Maybe(P.STOP_REASON, reason));
      OneMaybeSays(P.STOP_REASON, reason);
    case Failed(None) =>
      AloneSays(P.ERROR);
      FieldMissing([Field(P.TYPE, Quotation(P.ERROR))], P.ERROR);
    case Failed(Some(message)) =>
      OuterSays(P.ERROR, P.ERROR, Maybe(P.MESSAGE, message));
      OneMaybeSays(P.MESSAGE, message);
    case Noise =>
      AloneSays(P.PING);
      PingIsNoKind();
  }

  /** The client reads every event that the server writes. */
  lemma {:induction false} EventComesBack(e: Event)
    ensures EventOf(EventText(e)) == e && TellsEvent(EventText(e), e)
  {
    hide *;
    EventIsGood(e);
    ObjectIsGood(EventFields(e));
    GoodIs(Object(EventFields(e)));
    WholeEvent(e);
    WrittenTells(e);
    ToldIn(e);
    ToldIsRead(EventText(e), e);
  }

  lemma {:induction false} GoodIs(v: Json)
    requires Good(v)
    ensures WellFormed(v) && OneLine(Render(v))
  {
  }

  lemma {:induction false} WholeEvent(e: Event)
    requires WellFormed(Object(EventFields(e)))
    ensures IsObjectText(EventText(e), [], Fields(EventFields(e)))
  {
    hide Fields, EventFields, Render, WellFormedMembers, IsObjectText;
    WholeObjectText(Fields(EventFields(e)));
  }

  lemma {:induction false} ToldIn(e: Event)
    requires IsObjectText(EventText(e), [], Fields(EventFields(e))) && Tells(Fields(EventFields(e)), e)
    ensures TellsEvent(EventText(e), e)
  {
    hide Fields, EventFields, EventText, Tells, IsObjectText;
    assert TellsIn(EventText(e), [], Fields(EventFields(e)), e);
  }

  // ----- lines on the wire

  lemma {:induction false} CleanIsWhole(s: seq<Octet>)
    requires OneLine(s)
    ensures Clean(s) == s
  {
    if s != [] {
      CleanIsWhole(s[1..]);
      assert s == [s[0]] + s[1..];
    }
  }

  lemma {:induction false} TextIsWhole(t: Text)
    ensures CString(t) == t
  {
    NoZeroIsWhole(t);
    assert '\0' !in t;
  }

  lemma {:induction false} LineFramed(t: Text)
    requires OneLine(t) && t != []
    ensures Frame([], t + NEWLINE) == ([t], [])
  {
    var s := t + NEWLINE;
    assert s[..|t|] == t && s[..|t| + 1] == s && s[|t|] == '\n';
    CleanIsWhole(t);
    TextIsWhole(t);
    hide Frame, Clean, CString;
    FrameFirst(s, |t|);
  }

  lemma {:induction false} EmptyLineFramed()
    ensures Frame([], NEWLINE) == ([], [])
  {
    assert NEWLINE[..0] == [] && NEWLINE[..1] == NEWLINE;
    hide Frame;
    FrameFirst(NEWLINE, 0);
    assert Clean([]) == [];
  }

  lemma {:induction false} EventFramed(title: Text, e: Event)
    requires OneLine(title)
    ensures Frame([], WireOf(title, e)) == ([P.EVENT + title, P.DATA + EventText(e)], [])
  {
    hide *;
    TitleIsGood(title, e);
    var first, second := P.EVENT + title, P.DATA + EventText(e);
    LineFramed(first);
    LineFramed(second);
    EmptyLineFramed();
    FrameJoins([], first + NEWLINE, second + NEWLINE);
    FrameJoins([], first + NEWLINE + (second + NEWLINE), NEWLINE);
    assert [first] + [second] == [first, second] && [first, second] + [] == [first, second];
    WireIs(title, e);
  }

  lemma {:induction false} WireIs(title: Text, e: Event)
    ensures WireOf(title, e) == P.EVENT + title + NEWLINE + (P.DATA + EventText(e) + NEWLINE) + NEWLINE
  {
    hide EventText;
  }

  lemma {:induction false} TitleIsGood(title: Text, e: Event)
    requires OneLine(title)
    ensures OneLine(P.EVENT + title) && OneLine(P.DATA + EventText(e))
    ensures P.EVENT + title != [] && P.DATA + EventText(e) != []
  {
    assert OneLine(P.EVENT) && OneLine(P.DATA) && P.EVENT != [] && P.DATA != [];
    hide *;
    EventIsGood(e);
    ObjectIsGood(EventFields(e));
    GoodIs(Object(EventFields(e)));
    TextIs(e);
    OneLineJoins(P.EVENT, title);
    OneLineJoins(P.DATA, EventText(e));
  }

  lemma {:induction false} TextIs(e: Event)
    ensures EventText(e) == Render(Object(EventFields(e))) && |EventText(e)| > 0 && EventText(e)[0] == '{'
  {
    hide Fields, EventFields, RenderMembers;
  }

  // ----- the lines and what they hand on

  function Lines(title: Text, es: seq<Event>): seq<Text> {
    if es == [] then []
    else Lines(title, es[..|es| - 1]) + [P.EVENT + title, P.DATA + EventText(es[|es| - 1])]
  }

  lemma {:induction false} WireFramed(title: Text, es: seq<Event>)
    requires OneLine(title)
    ensures Frame([], Wire(title, es)) == (Lines(title, es), [])
    decreases |es|
  {
    hide Frame, OneLine, WireOf, EventText, P.EVENT, P.DATA;
    if es == [] {
      NothingFramed([], NOTHING);
    } else {
      var n := |es| - 1;
      WireFramed(title, es[..n]);
      EventFramed(title, es[n]);
      FrameJoins([], Wire(title, es[..n]), WireOf(title, es[n]));
    }
  }

  lemma {:induction false} TitleHandsNothing(title: Text)
    ensures Payload(P.EVENT + title) == []
  {
    var s := P.EVENT + title;
    assert s[0] == 'e' && DATA[0] == 'd';
  }

  lemma {:induction false} DataHandsText(e: Event)
    ensures Payload(P.DATA + EventText(e)) == [EventText(e)]
  {
    assert DATA == P.DATA && DONE[0] == '[';
    TextIs(e);
    hide EventText;
    var s := P.DATA + EventText(e);
    assert DATA <= s && s[|DATA|..] == EventText(e);
  }

  lemma {:induction false} PayloadsMore(lines: seq<Text>, line: Text)
    ensures Payloads(lines + [line]) == Payloads(lines) + Payload(line)
  {
    hide Payload;
    assert (lines + [line])[..|lines|] == lines;
  }

  lemma {:induction false} LinesTell(title: Text, es: seq<Event>)
    ensures TellAll(Payloads(Lines(title, es)), es)
    decreases |es|
  {
    hide *;
    LinesUnfold(title, es);
    if es != [] {
      var n := |es| - 1;
      var front, first, second := Lines(title, es[..n]), P.EVENT + title, P.DATA + EventText(es[n]);
      LinesTell(title, es[..n]);
      PayloadsMore(front, first);
      PayloadsMore(front + [first], second);
      assert front + [first] + [second] == front + [first, second];
      TitleHandsNothing(title);
      DataHandsText(es[n]);
      EventComesBack(es[n]);
      TellMore(Payloads(front), es[..n], EventText(es[n]), es[n]);
      assert es[..n] + [es[n]] == es && Payloads(front) + [] == Payloads(front);
    }
  }

  lemma {:induction false} LinesUnfold(title: Text, es: seq<Event>)
    ensures es == [] ==> TellAll(Payloads(Lines(title, es)), es)
    ensures es != [] ==>
              var n := |es| - 1;
              Lines(title, es) == Lines(title, es[..n]) + [P.EVENT + title, P.DATA + EventText(es[n])]
  {
    hide EventText;
  }

  lemma {:induction false} TellMore(payloads: seq<Text>, es: seq<Event>, data: Text, e: Event)
    requires TellAll(payloads, es) && TellsEvent(data, e)
    ensures TellAll(payloads + [data], es + [e])
  {
    hide TellsEvent;
  }

  /** From server to client: whatever run of complete blocks the server writes as its events, whatever title each
      has, and however the bytes are cut into chunks, the client ends with the first 64 text and tool blocks, each
      with the join of its own fragments, and with the last stop reason and error. */
  lemma {:induction false} ServerIsUnderstood(chunks: seq<seq<Octet>>, title: Text, parts: seq<Part>)
    requires forall k :: 0 <= k < |parts| ==> WellBracketed(parts[k])
    requires OneLine(title) && Concat(chunks) == Wire(title, EventsOf(parts))
    ensures var end := Run(FRESH, chunks).value;
            && end.blocks == FirstBlocks(BlocksOf(parts))
            && end.stopReason == ReasonAfter(None, EventsOf(parts))
            && end.errorMsg == MessageAfter(None, EventsOf(parts)) && end.gotError == AnyFailed(EventsOf(parts))
  {
    hide *;
    WireFramed(title, EventsOf(parts));
    FrameIsSplit(Concat(chunks));
    LinesTell(title, EventsOf(parts));
    ReplyGivesItsBlocks(chunks, parts);
  }

  /** The line that ends a stream is no event. */
  lemma {:induction false} DoneIsNoEvent()
    ensures Payload(P.DATA + P.DONE) == []
  {
    var s := P.DATA + P.DONE;
    assert DATA == P.DATA && DONE == P.DONE && s[|DATA|..] == DONE;
  }
}
