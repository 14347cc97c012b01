/** What the events of a well-formed reply say, and the blocks that come of them. */
module SseBlocks {
  import opened Options
  import opened CText
  import opened JsonScan
  import opened JsonGrammar
  import opened JsonStrings
  import opened Sse
  import P = Protocol

  // ----- any lines at all

  /** Whatever lines arrive, blocks only ever come on at the end, never more than 64, and a tool block
      always has some input. */
  ghost predicate Sound(a: Assembly) {
    |a.blocks| <= MAX_BLOCKS && forall k :: 0 <= k < |a.blocks| && a.blocks[k].ToolBlock? ==> a.blocks[k].input != []
  }

  lemma {:induction false} FinalizedKeepsSound(a: Assembly)
    requires Sound(a)
    ensures Sound(Finalized(a)) && a.blocks <= Finalized(a).blocks
  {
    assert |Built(a)| <= 1;
  }

  lemma {:induction false} ApplyKeepsSound(a: Assembly, e: Event)
    requires Sound(a)
    ensures Sound(Apply(a, e)) && a.blocks <= Apply(a, e).blocks
  {
    hide Sound, Finalized;
    match e
    case Stop =>
      FinalizedKeepsSound(a);
    case Failed(report) =>
      OnlyBlocksMatter(a, Apply(a, e));
    case _ =>
      OnlyBlocksMatter(a, Apply(a, e));
  }

  lemma {:induction false} OnlyBlocksMatter(a: Assembly, b: Assembly)
    requires Sound(a) && a.blocks == b.blocks
    ensures Sound(b)
  {
  }

  lemma {:induction false} BlocksOnlyGrow(a: Assembly, lines: seq<Text>)
    requires Sound(a)
    ensures Sound(Assemble(a, lines)) && a.blocks <= Assemble(a, lines).blocks
    decreases |lines|
  {
    hide Sound, Apply, EventOf, Payload;
    if lines != [] {
      var front, last := lines[..|lines| - 1], lines[|lines| - 1];
      BlocksOnlyGrow(a, front);
      if Payload(last) != [] {
        ApplyKeepsSound(Assemble(a, front), EventOf(Payload(last)[0]));
      }
    }
  }

  // ----- what the text of an event says, as a syntax tree

  /** The member key of the object is a string that means t, or there is no such string. */
  ghost predicate Says(ms: Members, key: Text, t: Option<Text>) {
    match Lookup(ms, key)
    case Some((Str(body), _)) => t.Some? && exists ps :: ValidPieces(ps) && IsSpelling(ps, body, t.value)
    case _ => t == None
  }

  predicate IsSpelling(ps: seq<Piece>, body: Text, t: Text)
    requires ValidPieces(ps)
  {
    RenderPieces(ps) == body && CString(Meaning(ps)) == t
  }

  predicate HasObject(ms: Members, key: Text, inner: Members) {
    Lookup(ms, key).Some? && Lookup(ms, key).value.0 == Obj(inner)
  }

  predicate HasNone(ms: Members, key: Text) {
    Lookup(ms, key) == None
  }

  // ----- the protocol, by the names it uses on the wire

  /** The names of the event kinds that mean something to the client. */
  function KindName(kind: EventKind): Text
    requires kind != OtherEvent
  {
    match kind
    case BlockStart => P.BLOCK_START
    case BlockDelta => P.BLOCK_DELTA
    case BlockStop => P.BLOCK_STOP
    case MessageDelta => P.MESSAGE_DELTA
    case ErrorReport => P.ERROR
  }

  predicate NoKindName(t: Text) {
    && t != P.BLOCK_START && t != P.BLOCK_DELTA && t != P.BLOCK_STOP
    && t != P.MESSAGE_DELTA && t != P.ERROR
  }

  ghost predicate SaysKind(ms: Members, kind: EventKind) {
    if kind == OtherEvent then exists t :: Says(ms, P.TYPE, Some(t)) && NoKindName(t)
    else Says(ms, P.TYPE, Some(KindName(kind)))
  }

  ghost predicate SaysDelta(inner: Members, e: Event) {
    match e
    case TextAdded(t) => Says(inner, P.TYPE, Some(P.TEXT_DELTA)) && Says(inner, P.TEXT, Some(t))
    case InputAdded(t) => Says(inner, P.TYPE, Some(P.INPUT_JSON_DELTA)) && Says(inner, P.PARTIAL_JSON, Some(t))
    case Noise => exists t: Text :: Says(inner, P.TYPE, Some(t)) && t != P.TEXT_DELTA && t != P.INPUT_JSON_DELTA
    case _ => false
  }

  ghost predicate SaysStart(inner: Members, e: Event) {
    e.Start? && Says(inner, P.TYPE, e.kind) && Says(inner, P.NAME, e.name) && Says(inner, P.ID, e.id)
  }

  ghost predicate SaysStopping(inner: Members, e: Event) {
    e.Stopping? && Says(inner, P.STOP_REASON, e.reason)
  }

  ghost predicate SaysFailure(inner: Members, e: Event) {
    e.Failed? && e.report.Some? && Says(inner, P.MESSAGE, e.report.value)
  }

  /** The object says event e. */
  ghost predicate Tells(ms: Members, e: Event) {
    || (SaysKind(ms, BlockStart) && exists inner :: HasObject(ms, P.CONTENT_BLOCK, inner) && SaysStart(inner, e))
    || (SaysKind(ms, BlockDelta) && exists inner :: HasObject(ms, P.DELTA, inner) && SaysDelta(inner, e))
    || (SaysKind(ms, BlockStop) && e == Stop)
    || (SaysKind(ms, MessageDelta) && exists inner :: HasObject(ms, P.DELTA, inner) && SaysStopping(inner, e))
    || (SaysKind(ms, ErrorReport) && exists inner :: HasObject(ms, P.ERROR, inner) && SaysFailure(inner, e))
    || (SaysKind(ms, ErrorReport) && HasNone(ms, P.ERROR) && e == Failed(None))
    || (SaysKind(ms, OtherEvent) && e == Noise)
  }

  lemma {:induction false} MemberNames()
    ensures TYPE == P.TYPE && CONTENT_BLOCK == P.CONTENT_BLOCK && DELTA == P.DELTA && ERROR == P.ERROR
    ensures NAME == P.NAME && ID == P.ID && TEXT == P.TEXT && PARTIAL_JSON == P.PARTIAL_JSON
    ensures STOP_REASON == P.STOP_REASON && MESSAGE == P.MESSAGE
  {
  }

  lemma {:induction false} KindNames(kind: EventKind)
    requires kind != OtherEvent
    ensures KindOf(KindName(kind)) == kind
  {
    KindLengths();
    match kind
    case BlockStart =>
    case BlockDelta =>
      assert KindName(BlockDelta)[14] == 'd' && KindName(BlockStart)[14] == 's';
    case BlockStop =>
    case MessageDelta =>
    case ErrorReport =>
  }

  lemma {:induction false} KindLengths()
    ensures |KindName(BlockStart)| == 19 && |KindName(BlockDelta)| == 19 && |KindName(BlockStop)| == 18
    ensures |KindName(MessageDelta)| == 13 && |KindName(ErrorReport)| == 5
  {
  }

  lemma {:induction false} NoKind(t: Text)
    requires NoKindName(t)
    ensures KindOf(t) == OtherEvent
  {
  }

  lemma {:induction false} DeltaNames(t: Text)
    ensures DeltaKindOf(P.TEXT_DELTA) == TextDelta && DeltaKindOf(P.INPUT_JSON_DELTA) == InputDelta
    ensures t != P.TEXT_DELTA && t != P.INPUT_JSON_DELTA ==> DeltaKindOf(t) == OtherDelta
  {
    assert |P.TEXT_DELTA| == 10 && |P.INPUT_JSON_DELTA| == 16;
  }

  ghost predicate TellsIn(data: Text, pad: Text, ms: Members, e: Event) {
    IsObjectText(data, pad, ms) && Tells(ms, e)
  }

  /** The bytes are a rendered object that says event e. */
  ghost predicate TellsEvent(data: Text, e: Event) {
    exists pad, ms :: TellsIn(data, pad, ms, e)
  }

  // ----- the byte scanners read what the tree says

  lemma {:induction false} SaysReads(s: Text, pad: Text, ms: Members, key: Text, t: Option<Text>)
    requires IsObjectText(s, pad, ms) && Says(ms, key, t)
    ensures StringValue(s, key) == t
  {
    hide IsObjectText, Lookup, StringValue, ValidPieces, RenderPieces, Meaning, CString;
    match Lookup(ms, key)
    case Some((Str(body), at)) =>
      var ps :| ValidPieces(ps) && IsSpelling(ps, body, t.value);
      StringMemberDecodes(s, pad, ms, key, ps, at);
    case _ =>
      OtherMemberIsNoString(s, pad, ms, key);
  }

  lemma {:induction false} FoundIsWellFormed(ms: Members, key: Text)
    requires WellFormedMembers(ms) && Lookup(ms, key).Some?
    ensures WellFormed(Lookup(ms, key).value.0)
  {
    hide WellFormed, RenderMember, RenderName;
    match ms
    case LastMember(m) =>
    case MoreMembers(m, rest) =>
      if m.key != key {
        FoundIsWellFormed(rest, key);
      }
  }

  lemma {:induction false} WholeObjectText(inner: Members)
    requires WellFormed(Obj(inner))
    ensures IsObjectText(Render(Obj(inner)), [], inner)
  {
    hide Render, WellFormedMembers;
    var x := Render(Obj(inner));
    var none: Text := [];
    assert none + x == x && x[0..|x|] == x;
  }

  lemma {:induction false} ObjectReads(s: Text, pad: Text, ms: Members, key: Text, inner: Members)
    requires IsObjectText(s, pad, ms) && HasObject(ms, key, inner)
    ensures Raw(s, key) == Some(Render(Obj(inner))) && IsObjectText(Render(Obj(inner)), [], inner)
  {
    hide IsObjectText, Lookup, Raw, Render, WellFormed;
    IsObjectMembers(s, pad, ms);
    LookupInObject(s, pad, ms, key);
    FoundIsWellFormed(ms, key);
    WholeObjectText(inner);
  }

  lemma {:induction false} NoneReads(s: Text, pad: Text, ms: Members, key: Text)
    requires IsObjectText(s, pad, ms) && HasNone(ms, key)
    ensures Raw(s, key) == None
  {
    hide IsObjectText, Lookup, Raw, Render;
    LookupInObject(s, pad, ms, key);
  }

  lemma {:induction false} KindReads(s: Text, pad: Text, ms: Members, kind: EventKind)
    requires IsObjectText(s, pad, ms) && SaysKind(ms, kind)
    ensures StringValue(s, TYPE).Some? && KindOf(StringValue(s, TYPE).value) == kind
  {
    MemberNames();
    hide IsObjectText, Says, StringValue, KindOf, TYPE, KindName, NoKindName;
    if kind == OtherEvent {
      var t :| Says(ms, P.TYPE, Some(t)) && NoKindName(t);
      NoKind(t);
      SaysReads(s, pad, ms, P.TYPE, Some(t));
    } else {
      KindNames(kind);
      SaysReads(s, pad, ms, P.TYPE, Some(KindName(kind)));
    }
  }

  lemma {:induction false} DeltaReads(delta: Text, inner: Members, e: Event)
    requires IsObjectText(delta, [], inner) && SaysDelta(inner, e)
    ensures DeltaEvent(delta) == e
  {
    MemberNames();
    hide IsObjectText, Says, StringValue, DeltaKindOf, TYPE, TEXT, PARTIAL_JSON;
    DeltaNames([]);
    match e
    case TextAdded(t) =>
      SaysReads(delta, [], inner, P.TYPE, Some(P.TEXT_DELTA));
      SaysReads(delta, [], inner, P.TEXT, Some(t));
    case InputAdded(t) =>
      SaysReads(delta, [], inner, P.TYPE, Some(P.INPUT_JSON_DELTA));
      SaysReads(delta, [], inner, P.PARTIAL_JSON, Some(t));
    case Noise =>
      OtherDeltaReads(delta, inner);
    case _ =>
  }

  lemma {:induction false} OtherDeltaReads(delta: Text, inner: Members)
    requires IsObjectText(delta, [], inner) && SaysDelta(inner, Noise)
    ensures DeltaEvent(delta) == Noise
  {
    MemberNames();
    hide IsObjectText, Says, StringValue, DeltaKindOf, TYPE, TEXT, PARTIAL_JSON;
    var t: Text :| Says(inner, P.TYPE, Some(t)) && t != P.TEXT_DELTA && t != P.INPUT_JSON_DELTA;
    DeltaNames(t);
    SaysReads(delta, [], inner, P.TYPE, Some(t));
  }

  lemma {:induction false} StartReads(cb: Text, inner: Members, e: Event)
    requires IsObjectText(cb, [], inner) && SaysStart(inner, e)
    ensures StartEvent(cb) == e
  {
    MemberNames();
    hide IsObjectText, Says, StringValue, TYPE, NAME, ID;
    SaysReads(cb, [], inner, P.TYPE, e.kind);
    SaysReads(cb, [], inner, P.NAME, e.name);
    SaysReads(cb, [], inner, P.ID, e.id);
  }

  lemma {:induction false} StoppingReads(delta: Text, inner: Members, e: Event)
    requires IsObjectText(delta, [], inner) && SaysStopping(inner, e)
    ensures Stopping(StringValue(delta, STOP_REASON)) == e
  {
    MemberNames();
    hide IsObjectText, Says, StringValue, STOP_REASON;
    SaysReads(delta, [], inner, P.STOP_REASON, e.reason);
  }

  lemma {:induction false} FailureReads(err: Text, inner: Members, e: Event)
    requires IsObjectText(err, [], inner) && SaysFailure(inner, e)
    ensures Failed(Some(StringValue(err, MESSAGE))) == e
  {
    MemberNames();
    hide IsObjectText, Says, StringValue, MESSAGE;
    SaysReads(err, [], inner, P.MESSAGE, e.report.value);
  }

  /** The byte scanners find in the text exactly the event that its syntax tree says. */
  lemma {:induction false} EventIsRead(data: Text, pad: Text, ms: Members, e: Event)
    requires TellsIn(data, pad, ms, e)
    ensures EventOf(data) == e
  {
    hide StringValue, Raw, IsObjectText, Render, KindOf, StartEvent, DeltaEvent, TellsIn, SaysKind, HasObject, HasNone;
    hide SaysStart, SaysDelta, SaysStopping, SaysFailure, TYPE, CONTENT_BLOCK, DELTA, ERROR, STOP_REASON, MESSAGE;
    TellsCases(data, pad, ms, e);
    if SaysKind(ms, BlockStart) && exists inner :: HasObject(ms, CONTENT_BLOCK, inner) && SaysStart(inner, e) {
      var inner :| HasObject(ms, CONTENT_BLOCK, inner) && SaysStart(inner, e);
      KindReads(data, pad, ms, BlockStart);
      ObjectReads(data, pad, ms, CONTENT_BLOCK, inner);
      StartReads(Render(Obj(inner)), inner, e);
    } else if SaysKind(ms, BlockDelta) && exists inner :: HasObject(ms, DELTA, inner) && SaysDelta(inner, e) {
      var inner :| HasObject(ms, DELTA, inner) && SaysDelta(inner, e);
      KindReads(data, pad, ms, BlockDelta);
      ObjectReads(data, pad, ms, DELTA, inner);
      DeltaReads(Render(Obj(inner)), inner, e);
    } else if SaysKind(ms, BlockStop) && e == Stop {
      KindReads(data, pad, ms, BlockStop);
    } else if SaysKind(ms, MessageDelta) && exists inner :: HasObject(ms, DELTA, inner) && SaysStopping(inner, e) {
      var inner :| HasObject(ms, DELTA, inner) && SaysStopping(inner, e);
      KindReads(data, pad, ms, MessageDelta);
      ObjectReads(data, pad, ms, DELTA, inner);
      StoppingReads(Render(Obj(inner)), inner, e);
    } else if SaysKind(ms, ErrorReport) && exists inner :: HasObject(ms, ERROR, inner) && SaysFailure(inner, e) {
      var inner :| HasObject(ms, ERROR, inner) && SaysFailure(inner, e);
      KindReads(data, pad, ms, ErrorReport);
      ObjectReads(data, pad, ms, ERROR, inner);
      FailureReads(Render(Obj(inner)), inner, e);
    } else if SaysKind(ms, ErrorReport) && HasNone(ms, ERROR) && e == Failed(None) {
      KindReads(data, pad, ms, ErrorReport);
      NoneReads(data, pad, ms, ERROR);
    } else {
      KindReads(data, pad, ms, OtherEvent);
    }
  }

  lemma {:induction false} TellsCases(data: Text, pad: Text, ms: Members, e: Event)
    requires TellsIn(data, pad, ms, e)
    ensures IsObjectText(data, pad, ms)
    ensures
      || (SaysKind(ms, BlockStart) && exists inner :: HasObject(ms, CONTENT_BLOCK, inner) && SaysStart(inner, e))
      || (SaysKind(ms, BlockDelta) && exists inner :: HasObject(ms, DELTA, inner) && SaysDelta(inner, e))
      || (SaysKind(ms, BlockStop) && e == Stop)
      || (SaysKind(ms, MessageDelta) && exists inner :: HasObject(ms, DELTA, inner) && SaysStopping(inner, e))
      || (SaysKind(ms, ErrorReport) && exists inner :: HasObject(ms, ERROR, inner) && SaysFailure(inner, e))
      || (SaysKind(ms, ErrorReport) && HasNone(ms, ERROR) && e == Failed(None))
      || (SaysKind(ms, OtherEvent) && e == Noise)
  {
    MemberNames();
    hide CONTENT_BLOCK, DELTA, ERROR;
    hide IsObjectText, SaysKind, HasObject, SaysStart, SaysDelta, SaysStopping, SaysFailure, HasNone;
  }

  // ----- a reply as a run of blocks

  datatype Part =
    | Between(e: Event)
    | Whole(kind: Option<Text>, name: Option<Text>, id: Option<Text>, inside: seq<Event>)

  predicate Inner(e: Event) {
    !e.Start? && !e.Stop?
  }

  predicate WellBracketed(p: Part) {
    match p
    case Between(e) => Inner(e)
    case Whole(_, _, _, inside) => forall k :: 0 <= k < |inside| ==> Inner(inside[k])
  }

  function EventsOfPart(p: Part): seq<Event> {
    match p
    case Between(e) => [e]
    case Whole(kind, name, id, inside) => [Start(kind, name, id)] + inside + [Stop]
  }

  function EventsOf(parts: seq<Part>): seq<Event> {
    if parts == [] then [] else EventsOf(parts[..|parts| - 1]) + EventsOfPart(parts[|parts| - 1])
  }

  function TextsIn(inside: seq<Event>): Text {
    if inside == [] then []
    else
      var last := inside[|inside| - 1];
      TextsIn(inside[..|inside| - 1]) + (if last.TextAdded? then last.t else [])
  }

  function InputsIn(inside: seq<Event>): Text {
    if inside == [] then []
    else
      var last := inside[|inside| - 1];
      InputsIn(inside[..|inside| - 1]) + (if last.InputAdded? then last.t else [])
  }

  /** The block a part stands for: its own fragments joined, and {} for a tool called without input. */
  function BlockOf(p: Part): seq<Block> {
    match p
    case Between(_) => []
    case Whole(kind, name, id, inside) =>
      if kind == Some(P.TEXT) then [TextBlock(TextsIn(inside))]
      else if kind == Some(P.TOOL_USE) then
        [ToolBlock(name, id, if InputsIn(inside) == [] then P.NO_INPUT else InputsIn(inside))]
      else []
  }

  function BlocksOf(parts: seq<Part>): seq<Block> {
    if parts == [] then [] else BlocksOf(parts[..|parts| - 1]) + BlockOf(parts[|parts| - 1])
  }

  function FirstBlocks(bs: seq<Block>): seq<Block> {
    if |bs| <= 64 then bs else bs[..64]
  }

  function ApplyAll(a: Assembly, es: seq<Event>): Assembly {
    if es == [] then a else Apply(ApplyAll(a, es[..|es| - 1]), es[|es| - 1])
  }

  lemma {:induction false} ApplyAllJoins(a: Assembly, x: seq<Event>, y: seq<Event>)
    ensures ApplyAll(a, x + y) == ApplyAll(ApplyAll(a, x), y)
    decreases |y|
  {
    hide Apply;
    if y == [] {
      assert x + y == x;
    } else {
      var n := |y| - 1;
      ApplyAllJoins(a, x, y[..n]);
      assert (x + y)[..|x| + n] == x + y[..n];
    }
  }

  lemma {:induction false} ApplyInside(a: Assembly, inside: seq<Event>)
    requires forall k :: 0 <= k < |inside| ==> Inner(inside[k])
    ensures var b := ApplyAll(a, inside);
            && (b.blocks, b.curType, b.name, b.id) == (a.blocks, a.curType, a.name, a.id)
            && b.text == a.text + TextsIn(inside) && b.input == a.input + InputsIn(inside)
    decreases |inside|
  {
    if inside != [] {
      var front, last := inside[..|inside| - 1], inside[|inside| - 1];
      ApplyInside(a, front);
      assert Inner(last);
    }
  }

  lemma {:induction false} ApplyOne(a: Assembly, e: Event)
    ensures ApplyAll(a, [e]) == Apply(a, e)
  {
    assert [e][..0] == [];
  }

  lemma {:induction false} ApplyWhole(a: Assembly, p: Part)
    requires p.Whole?
    ensures ApplyAll(a, EventsOfPart(p)) ==
              Finalized(ApplyAll(Started(a, p.kind, p.name, p.id), p.inside))
  {
    hide ApplyAll, Finalized, Started;
    var start := Start(p.kind, p.name, p.id);
    ApplyAllJoins(a, [start] + p.inside, [Stop]);
    ApplyAllJoins(a, [start], p.inside);
    ApplyOne(a, start);
    ApplyOne(ApplyAll(a, [start] + p.inside), Stop);
  }

  lemma {:induction false} KindsDiffer()
    ensures TEXT != TOOL_USE
    ensures BlockKindOf(Some(TEXT)) == PlainText && BlockKindOf(Some(TOOL_USE)) == ToolUse
    ensures TEXT == P.TEXT && TOOL_USE == P.TOOL_USE && NO_INPUT == P.NO_INPUT
  {
    assert |TEXT| == 4 && |TOOL_USE| == 8;
  }

  /** A whole block adds what it stands for, or nothing once there are 64. */
  lemma {:induction false} PartAddsItsBlock(a: Assembly, p: Part)
    requires WellBracketed(p) && |a.blocks| <= MAX_BLOCKS
    ensures ApplyAll(a, EventsOfPart(p)).blocks ==
              if |a.blocks| == MAX_BLOCKS then a.blocks else a.blocks + BlockOf(p)
  {
    hide TextsIn, InputsIn, TEXT, TOOL_USE, ApplyAll, EventsOfPart;
    match p
    case Between(e) =>
      BetweenAddsNothing(a, e);
      assert BlockOf(p) == [] && a.blocks + [] == a.blocks;
    case Whole(kind, name, id, inside) =>
      ApplyWhole(a, p);
      ApplyInside(Started(a, kind, name, id), inside);
      KindsDiffer();
      assert [] + TextsIn(inside) == TextsIn(inside) && [] + InputsIn(inside) == InputsIn(inside);
  }

  lemma {:induction false} BetweenAddsNothing(a: Assembly, e: Event)
    requires Inner(e)
    ensures ApplyAll(a, EventsOfPart(Between(e))).blocks == a.blocks
  {
    hide ApplyAll;
    ApplyOne(a, e);
  }

  /** For every run of complete blocks, the assembly holds the first 64 of them in order, each with the
      join of its own fragments. */
  lemma {:induction false} PartsGiveTheirBlocks(a: Assembly, parts: seq<Part>)
    requires |a.blocks| <= MAX_BLOCKS && forall k :: 0 <= k < |parts| ==> WellBracketed(parts[k])
    ensures ApplyAll(a, EventsOf(parts)).blocks == FirstBlocks(a.blocks + BlocksOf(parts))
    decreases |parts|
  {
    hide ApplyAll, EventsOfPart, BlockOf, WellBracketed;
    if parts == [] {
      ApplyNothing(a);
      assert a.blocks + [] == a.blocks;
    } else {
      var front, last := parts[..|parts| - 1], parts[|parts| - 1];
      PartsGiveTheirBlocks(a, front);
      ApplyAllJoins(a, EventsOf(front), EventsOfPart(last));
      PartAddsItsBlock(ApplyAll(a, EventsOf(front)), last);
      AtMostOneBlock(last);
      FirstBlocksGrow(a.blocks + BlocksOf(front), BlockOf(last));
      assert a.blocks + BlocksOf(parts) == (a.blocks + BlocksOf(front)) + BlockOf(last);
    }
  }

  lemma {:induction false} ApplyNothing(a: Assembly)
    ensures ApplyAll(a, []) == a
  {
  }

  lemma {:induction false} AtMostOneBlock(p: Part)
    ensures |BlockOf(p)| <= 1
  {
  }

  lemma {:induction false} FirstBlocksGrow(x: seq<Block>, y: seq<Block>)
    requires |y| <= 1
    ensures var f := FirstBlocks(x); FirstBlocks(x + y) == if |f| == MAX_BLOCKS then f else f + y
  {
    if |x| < MAX_BLOCKS {
      assert FirstBlocks(x + y) == x + y;
    } else {
      assert (x + y)[..MAX_BLOCKS] == x[..MAX_BLOCKS];
      assert FirstBlocks(x) == x[..MAX_BLOCKS];
      assert FirstBlocks(x + y) == (x + y)[..MAX_BLOCKS];
    }
  }

  // ----- how the message ended

  /** The reason of the last event that gives one, and the message of the last error that reports. */
  function ReasonAfter(start: Option<Text>, es: seq<Event>): Option<Text> {
    if es == [] then start
    else if es[|es| - 1].Stopping? then es[|es| - 1].reason
    else ReasonAfter(start, es[..|es| - 1])
  }

  function MessageAfter(start: Option<Text>, es: seq<Event>): Option<Text> {
    if es == [] then start
    else if es[|es| - 1].Failed? && es[|es| - 1].report.Some? then es[|es| - 1].report.value
    else MessageAfter(start, es[..|es| - 1])
  }

  predicate AnyFailed(es: seq<Event>) {
    exists k :: 0 <= k < |es| && es[k].Failed?
  }

  lemma {:induction false} AnyFailedStep(es: seq<Event>)
    requires es != []
    ensures AnyFailed(es) <==> AnyFailed(es[..|es| - 1]) || es[|es| - 1].Failed?
  {
    var n := |es| - 1;
    if AnyFailed(es) {
      var k :| 0 <= k < |es| && es[k].Failed?;
      assert k < n ==> es[..n][k] == es[k];
    }
  }

  /** However the events come, the message ends with the last stop reason they give; it has failed exactly when
      one of them says so, with the last message reported. */
  lemma {:induction false} EndingOfEvents(a: Assembly, es: seq<Event>)
    ensures var b := ApplyAll(a, es);
            && b.stopReason == ReasonAfter(a.stopReason, es) && b.errorMsg == MessageAfter(a.errorMsg, es)
            && (b.gotError <==> a.gotError || AnyFailed(es))
    decreases |es|
  {
    hide Built, BlockKindOf, AnyFailed;
    if es == [] {
      NoneFailed();
    } else {
      EndingOfEvents(a, es[..|es| - 1]);
      AnyFailedStep(es);
    }
  }

  lemma {:induction false} NoneFailed()
    ensures !AnyFailed([])
  {
  }

  // ----- from the bytes of the reply to its blocks

  function Payloads(lines: seq<Text>): seq<Text> {
    if lines == [] then [] else Payloads(lines[..|lines| - 1]) + Payload(lines[|lines| - 1])
  }

  /** The data lines say these events, one each, in order. */
  ghost predicate TellAll(payloads: seq<Text>, es: seq<Event>) {
    |payloads| == |es| && forall k :: 0 <= k < |es| ==> TellsEvent(payloads[k], es[k])
  }

  lemma {:induction false} AssembleIsApplyAll(a: Assembly, lines: seq<Text>, es: seq<Event>)
    requires TellAll(Payloads(lines), es)
    ensures Assemble(a, lines) == ApplyAll(a, es)
    decreases |lines|
  {
    hide TellsEvent, Apply, EventOf, Payload;
    if lines == [] {
      assert es == [];
    } else {
      var front, last := lines[..|lines| - 1], lines[|lines| - 1];
      OnePayload(last);
      if Payload(last) == [] {
        assert Payloads(lines) == Payloads(front);
        AssembleIsApplyAll(a, front, es);
      } else {
        var n := |es| - 1;
        assert Payloads(lines)[..n] == Payloads(front);
        assert TellsEvent(Payloads(lines)[n], es[n]);
        assert TellAll(Payloads(front), es[..n]);
        AssembleIsApplyAll(a, front, es[..n]);
        ToldIsRead(Payload(last)[0], es[n]);
      }
    }
  }

  lemma {:induction false} OnePayload(line: Text)
    ensures |Payload(line)| <= 1
  {
  }

  lemma {:induction false} ToldIsRead(data: Text, e: Event)
    requires TellsEvent(data, e)
    ensures EventOf(data) == e
  {
    hide TellsIn, EventOf;
    var pad, ms :| TellsIn(data, pad, ms, e);
    EventIsRead(data, pad, ms, e);
  }

  /** The whole reply, over any chunking of its bytes: when the data lines between its newlines say the
      events of some run of complete blocks, the receiver ends with the first 64 text and tool blocks of
      that run, in order, each holding the join of its own fragments, and with the last stop reason and error of
      its events. */
  lemma {:induction false} ReplyGivesItsBlocks(chunks: seq<seq<Octet>>, parts: seq<Part>)
    requires forall k :: 0 <= k < |parts| ==> WellBracketed(parts[k])
    requires TellAll(Payloads(Split(Concat(chunks)).0), EventsOf(parts))
    ensures var end := Run(FRESH, chunks).value;
            && end.blocks == FirstBlocks(BlocksOf(parts))
            && end.stopReason == ReasonAfter(None, EventsOf(parts))
            && end.errorMsg == MessageAfter(None, EventsOf(parts)) && end.gotError == AnyFailed(EventsOf(parts))
  {
    hide *;
    EndingOfEvents(NOTHING, EventsOf(parts));
    StreamingIsBatch(chunks);
    NothingYet();
    AssembleIsApplyAll(NOTHING, Split(Concat(chunks)).0, EventsOf(parts));
    PartsGiveTheirBlocks(NOTHING, parts);
    assert [] + BlocksOf(parts) == BlocksOf(parts);
  }

  lemma {:induction false} NothingYet()
    ensures NOTHING.blocks == [] && |NOTHING.blocks| <= MAX_BLOCKS
    ensures NOTHING.stopReason == None && NOTHING.errorMsg == None && !NOTHING.gotError
  {
  }
}
