/** The streaming reply: network chunks are framed into lines, lines carry events, events assemble blocks. */
module Sse {
  import opened Options
  import opened CText
  import opened JsonScan
  import opened JsonStrings

  // ----- events and what they do

  const MAX_BLOCKS := 64
  const RAW_CAP := 4096

  const TOOL_USE: Text := "tool_use"
  const TEXT: Text := "text"
  const NO_INPUT: Text := "{}"

  datatype Block =
    | ToolBlock(name: Option<Text>, id: Option<Text>, input: Text)
    | TextBlock(text: Text)

  /** The block being built, the blocks built so far, and how the message ended. */
  datatype Assembly = Assembly(
    blocks: seq<Block>, curType: Option<Text>, name: Option<Text>, id: Option<Text>, text: Text, input: Text,
    stopReason: Option<Text>, gotError: bool, errorMsg: Option<Text>)

  const NOTHING := Assembly([], None, None, None, [], [], None, false, None)

  datatype Event =
    | Start(kind: Option<Text>, name: Option<Text>, id: Option<Text>)
    | TextAdded(t: Text)
    | InputAdded(t: Text)
    | Stop
    | Stopping(reason: Option<Text>)
    | Failed(report: Option<Option<Text>>)  // without an error object the old message stays
    | Noise

  datatype BlockKind = ToolUse | Thinking | PlainText | OtherBlock

  function BlockKindOf(t: Option<Text>): BlockKind {
    if t == Some(TOOL_USE) then ToolUse
    else if t == Some("thinking") then Thinking
    else if t == Some(TEXT) then PlainText
    else OtherBlock
  }

  function Started(a: Assembly, kind: Option<Text>, name: Option<Text>, id: Option<Text>): Assembly {
    match BlockKindOf(kind)
    case ToolUse => a.(curType := kind, name := name, id := id, input := [])
    case Thinking => a.(curType := kind, text := [])
    case PlainText => a.(curType := kind, text := [])
    case OtherBlock => a.(curType := kind)
  }

  /** The block that stands in the buffers, if it is of a kind that is kept. */
  function Built(a: Assembly): seq<Block> {
    match BlockKindOf(a.curType)
    case ToolUse => [ToolBlock(a.name, a.id, if a.input != [] then a.input else NO_INPUT)]
    case PlainText => [TextBlock(a.text)]
    case _ => []
  }

  function Finalized(a: Assembly): Assembly {
    if |a.blocks| >= MAX_BLOCKS then a
    else a.(blocks := a.blocks + Built(a), text := [], input := [])
  }

  function Apply(a: Assembly, e: Event): Assembly {
    match e
    case Start(kind, name, id) => Started(a, kind, name, id)
    case TextAdded(t) => a.(text := a.text + t)
    case InputAdded(t) => a.(input := a.input + t)
    case Stop => Finalized(a)
    case Stopping(reason) => a.(stopReason := reason)
    case Failed(None) => a.(gotError := true)
    case Failed(Some(message)) => a.(gotError := true, errorMsg := message)
    case Noise => a
  }

  // ----- reading an event out of the text of a data line

  datatype EventKind = BlockStart | BlockDelta | BlockStop | MessageDelta | ErrorReport | OtherEvent

  function KindOf(t: Text): EventKind {
    if t == "content_block_start" then BlockStart
    else if t == "content_block_delta" then BlockDelta
    else if t == "content_block_stop" then BlockStop
    else if t == "message_delta" then MessageDelta
    else if t == "error" then ErrorReport
    else OtherEvent
  }

  datatype DeltaKind = TextDelta | InputDelta | OtherDelta

  function DeltaKindOf(t: Text): DeltaKind {
    if t == "text_delta" then TextDelta
    else if t == "input_json_delta" then InputDelta
    else OtherDelta
  }

  const TYPE: Text := "type"
  const CONTENT_BLOCK: Text := "content_block"
  const DELTA: Text := "delta"
  const ERROR: Text := "error"
  const NAME: Text := "name"
  const ID: Text := "id"
  const PARTIAL_JSON: Text := "partial_json"
  const STOP_REASON: Text := "stop_reason"
  const MESSAGE: Text := "message"

  function DeltaEvent(delta: Text): Event {
    match StringValue(delta, TYPE)
    case None => Noise
    case Some(dt) =>
      match DeltaKindOf(dt)
      case TextDelta => (match StringValue(delta, TEXT) case None => Noise case Some(t) => TextAdded(t))
      case InputDelta => (match StringValue(delta, PARTIAL_JSON) case None => Noise case Some(t) => InputAdded(t))
      case OtherDelta => Noise
  }

  function StartEvent(cb: Text): Event {
    Start(StringValue(cb, TYPE), StringValue(cb, NAME), StringValue(cb, ID))
  }

  function EventOf(data: Text): Event {
    match StringValue(data, TYPE)
    case None => Noise
    case Some(t) =>
      match KindOf(t)
      case BlockStart => (match Raw(data, CONTENT_BLOCK) case None => Noise case Some(cb) => StartEvent(cb))
      case BlockDelta => (match Raw(data, DELTA) case None => Noise case Some(delta) => DeltaEvent(delta))
      case BlockStop => Stop
      case MessageDelta =>
        (match Raw(data, DELTA)
         case None => Noise
         case Some(delta) => Stopping(StringValue(delta, STOP_REASON)))
      case ErrorReport =>
        (match Raw(data, ERROR)
         case None => Failed(None)
         case Some(err) => Failed(Some(StringValue(err, MESSAGE))))
      case OtherEvent => Noise
  }

  // ----- lines

  const DATA: Text := "data: "
  const DONE: Text := "[DONE]"

  /** The event texts that a line hands on: one or none. */
  function Payload(line: Text): seq<Text> {
    if DATA <= line && line[|DATA|..] != DONE then [line[|DATA|..]] else []
  }

  function Process(a: Assembly, line: Text): Assembly {
    if Payload(line) == [] then a else Apply(a, EventOf(Payload(line)[0]))
  }

  function Assemble(a: Assembly, lines: seq<Text>): Assembly {
    if lines == [] then a
    else Process(Assemble(a, lines[..|lines| - 1]), lines[|lines| - 1])
  }

  /** The framing loop: the lines that end in these bytes, and the bytes of the line still open. */
  function Frame(carry: seq<Octet>, bytes: seq<Octet>): (seq<Text>, seq<Octet>) {
    if bytes == [] then ([], carry)
    else
      var (lines, line) := Frame(carry, bytes[..|bytes| - 1]);
      var c := bytes[|bytes| - 1];
      if c == '\n' then (if line == [] then (lines, []) else (lines + [CString(line)], []))
      else if c == '\r' then (lines, line)
      else (lines, line + [c])
  }

  function Capped(raw: seq<Octet>, bytes: seq<Octet>): seq<Octet> {
    if |raw| >= RAW_CAP then raw
    else raw + (if |bytes| < RAW_CAP - |raw| then bytes else bytes[..RAW_CAP - |raw|])
  }

  /** What a receiver holds between two chunks. */
  datatype Stream = Stream(raw: seq<Octet>, line: seq<Octet>, value: Assembly)

  const FRESH := Stream([], [], NOTHING)

  /** What one call of the network callback does. */
  function Write(st: Stream, chunk: seq<Octet>): Stream {
    Stream(Capped(st.raw, chunk), Frame(st.line, chunk).1, Assemble(st.value, Frame(st.line, chunk).0))
  }

  // ----- the object that the network callback feeds

  /** Lookup scans the payload of the line as JSON, so that must be safe to scan. */
  predicate LineSafe(line: Text) {
    Payload(line) != [] ==> ScanSafe(Payload(line)[0])
  }

  predicate LinesSafe(lines: seq<Text>) {
    forall k :: 0 <= k < |lines| ==> LineSafe(lines[k])
  }

  lemma {:induction false} FoundMeansClosed(data: Text, key: Text)
    requires ScanSafe(data) && StringValue(data, key).Some?
    ensures EscapesClosed(data)
  {
    hide FindMember, Skip, DecodeFrom, CString, EscapesClosed;
  }

  class Receiver {
    var line: seq<Octet>
    var raw: seq<Octet>
    var text: Text
    var input: Text
    var blocks: seq<Block>
    var curType: Option<Text>
    var toolName: Option<Text>
    var toolId: Option<Text>
    var stopReason: Option<Text>
    var gotError: bool
    var errorMsg: Option<Text>

    ghost function Value(): Assembly
      reads this
    {
      Assembly(blocks, curType, toolName, toolId, text, input, stopReason, gotError, errorMsg)
    }

    ghost function State(): Stream
      reads this
    {
      Stream(raw, line, Value())
    }

    constructor ()
      ensures State() == FRESH
    {
      line, raw, text, input, blocks := [], [], [], [], [];
      curType, toolName, toolId, stopReason, errorMsg := None, None, None, None, None;
      gotError := false;
    }

    method FinalizeBlock()
      modifies `blocks, `text, `input
      ensures Value() == Finalized(old(Value()))
    {
      if |blocks| >= MAX_BLOCKS {
        return;
      }
      if curType == Some(TOOL_USE) {
        blocks := blocks + [ToolBlock(toolName, toolId, if |input| > 0 then input else NO_INPUT)];
      } else if curType == Some(TEXT) {
        blocks := blocks + [TextBlock(text)];
      }
      text := [];
      input := [];
    }

    method StartBlock(cb: Text)
      requires ScanSafe(cb)
      modifies `curType, `toolName, `toolId, `input, `text
      ensures Value() == Apply(old(Value()), StartEvent(cb))
    {
      hide StringValue, ScanSafe;
      curType := Jstr(cb, TYPE);
      if curType == Some(TOOL_USE) {
        toolName := Jstr(cb, NAME);
        toolId := Jstr(cb, ID);
        input := [];
      } else if curType == Some("thinking") {
        text := [];
      } else if curType == Some(TEXT) {
        text := [];
      }
    }

    method AddDelta(delta: Text)
      requires ScanSafe(delta)
      modifies `input, `text
      ensures Value() == Apply(old(Value()), DeltaEvent(delta))
    {
      hide StringValue, ScanSafe, TYPE, TEXT, PARTIAL_JSON;
      var dt := Jstr(delta, TYPE);
      if dt.None? {
        return;
      }
      if DeltaKindOf(dt.value) == TextDelta {
        var t := Jstr(delta, TEXT);
        if t.Some? && |t.value| > 0 {
          text := text + t.value;
        }
      } else if DeltaKindOf(dt.value) == InputDelta {
        var partial := Jstr(delta, PARTIAL_JSON);
        if partial.Some? {
          input := input + partial.value;
        }
      }
    }

    method HandleEvent(data: Text)
      requires ScanSafe(data)
      modifies this
      ensures Value() == Apply(old(Value()), EventOf(data))
      ensures line == old(line) && raw == old(raw)
    {
      hide StringValue, Raw, ScanSafe, EscapesClosed, KindOf, Started, Finalized, StartEvent, DeltaEvent;
      hide TYPE, CONTENT_BLOCK, DELTA, ERROR, STOP_REASON, MESSAGE;
      var t := Jstr(data, TYPE);
      if t.None? {
        return;
      }
      FoundMeansClosed(data, TYPE);
      match KindOf(t.value) {
        case BlockStart =>
          var cb := Jraw(data, CONTENT_BLOCK);
          if cb.Some? {
            RawIsSafe(data, CONTENT_BLOCK);
            StartBlock(cb.value);
          }
        case BlockDelta =>
          var delta := Jraw(data, DELTA);
          if delta.Some? {
            RawIsSafe(data, DELTA);
            AddDelta(delta.value);
          }
        case BlockStop =>
          FinalizeBlock();
        case MessageDelta =>
          var delta := Jraw(data, DELTA);
          if delta.Some? {
            RawIsSafe(data, DELTA);
            stopReason := Jstr(delta.value, STOP_REASON);
          }
        case ErrorReport =>
          gotError := true;
          var err := Jraw(data, ERROR);
          if err.Some? {
            RawIsSafe(data, ERROR);
            errorMsg := Jstr(err.value, MESSAGE);
          }
        case OtherEvent =>
      }
    }

    method ProcessLine(l: Text)
      requires LineSafe(l)
      modifies this
      ensures Value() == Process(old(Value()), l)
      ensures line == old(line) && raw == old(raw)
    {
      hide ScanSafe, EventOf, Apply;
      if DATA <= l && l[|DATA|..] != DONE {
        HandleEvent(l[|DATA|..]);
      }
    }

    /** The network callback: one chunk. */
    method CurlWrite(chunk: seq<Octet>)
      requires LinesSafe(Frame(line, chunk).0)
      modifies this
      ensures State() == Write(old(State()), chunk)
    {
      hide LineSafe, Process, Frame, Assemble, CString;
      if |raw| < RAW_CAP {
        raw := raw + (if |chunk| < RAW_CAP - |raw| then chunk else chunk[..RAW_CAP - |raw|]);
      }
      ghost var start, carry := Value(), line;
      NothingFramed(carry, start);
      assert chunk[..0] == [] && chunk[..|chunk|] == chunk;
      for i := 0 to |chunk|
        invariant line == Frame(carry, chunk[..i]).1
        invariant Value() == Assemble(start, Frame(carry, chunk[..i]).0)
        invariant raw == Capped(old(raw), chunk)
      {
        FrameStep(carry, chunk, i);
        ghost var lines := Frame(carry, chunk[..i]).0;
        if chunk[i] == '\n' {
          if |line| > 0 {
            FramedIsSafe(carry, chunk, i + 1);
            assert LineSafe((lines + [CString(line)])[|lines|]);
            AssembleStep(start, lines, CString(line));
            ProcessLine(CString(line));
            line := [];
          }
        } else if chunk[i] != '\r' {
          line := line + [chunk[i]];
        }
      }
    }
  }

  lemma {:induction false} NothingFramed(carry: seq<Octet>, a: Assembly)
    ensures Frame(carry, []) == ([], carry) && Assemble(a, []) == a
  {
  }

  lemma {:induction false} FrameStep(carry: seq<Octet>, bytes: seq<Octet>, i: nat)
    requires i < |bytes|
    ensures var (lines, line) := Frame(carry, bytes[..i]);
            Frame(carry, bytes[..i + 1]) ==
              if bytes[i] == '\n' then (if line == [] then (lines, []) else (lines + [CString(line)], []))
              else if bytes[i] == '\r' then (lines, line)
              else (lines, line + [bytes[i]])
  {
    hide CString;
    assert bytes[..i + 1][..i] == bytes[..i];
  }

  lemma {:induction false} AssembleStep(a: Assembly, lines: seq<Text>, line: Text)
    ensures Assemble(a, lines + [line]) == Process(Assemble(a, lines), line)
  {
    hide Process;
    assert (lines + [line])[..|lines|] == lines;
  }

  // ----- any chunking is the whole

  /** Framing the bytes in two goes is framing them in one. */
  lemma {:induction false} FrameJoins(carry: seq<Octet>, a: seq<Octet>, b: seq<Octet>)
    ensures var (first, open) := Frame(carry, a);
            Frame(carry, a + b) == (first + Frame(open, b).0, Frame(open, b).1)
    decreases |b|
  {
    hide CString;
    if b == [] {
      assert a + b == a;
      NothingFramed(Frame(carry, a).1, NOTHING);
      assert Frame(carry, a).0 + [] == Frame(carry, a).0;
    } else {
      var n := |b| - 1;
      FrameJoins(carry, a, b[..n]);
      assert (a + b)[..|a| + n] == a + b[..n];
      hide Frame;
      FrameStep(carry, a + b, |a| + n);
      FrameStep(Frame(carry, a).1, b, n);
      assert b[..n + 1] == b && (a + b)[..|a| + n + 1] == a + b && (a + b)[|a| + n] == b[n];
      var first := Frame(carry, a).0;
      var (lines, line) := Frame(Frame(carry, a).1, b[..n]);
      assert (first + lines) + [CString(line)] == first + (lines + [CString(line)]);
    }
  }

  lemma {:induction false} FramedIsSafe(carry: seq<Octet>, bytes: seq<Octet>, i: nat)
    requires i <= |bytes| && LinesSafe(Frame(carry, bytes).0)
    ensures LinesSafe(Frame(carry, bytes[..i]).0)
  {
    hide Frame, LineSafe;
    assert bytes == bytes[..i] + bytes[i..];
    FrameJoins(carry, bytes[..i], bytes[i..]);
    var first := Frame(carry, bytes[..i]).0;
    forall k | 0 <= k < |first| ensures LineSafe(first[k]) {
      assert first[k] == Frame(carry, bytes).0[k];
    }
  }

  lemma {:induction false} AssembleJoins(a: Assembly, x: seq<Text>, y: seq<Text>)
    ensures Assemble(a, x + y) == Assemble(Assemble(a, x), y)
    decreases |y|
  {
    hide Process;
    if y == [] {
      assert x + y == x;
    } else {
      var n := |y| - 1;
      AssembleJoins(a, x, y[..n]);
      assert (x + y)[..|x| + n] == x + y[..n];
    }
  }

  function Run(st: Stream, chunks: seq<seq<Octet>>): Stream {
    if chunks == [] then st else Write(Run(st, chunks[..|chunks| - 1]), chunks[|chunks| - 1])
  }

  function Concat(chunks: seq<seq<Octet>>): seq<Octet> {
    if chunks == [] then [] else Concat(chunks[..|chunks| - 1]) + chunks[|chunks| - 1]
  }

  lemma {:induction false} WriteJoins(st: Stream, a: seq<Octet>, b: seq<Octet>)
    ensures Write(Write(st, a), b) == Write(st, a + b)
  {
    hide Frame, Assemble, Capped;
    FrameJoins(st.line, a, b);
    AssembleJoins(st.value, Frame(st.line, a).0, Frame(Write(st, a).line, b).0);
    CappedJoins(st.raw, a, b);
  }

  lemma {:induction false} CappedJoins(raw: seq<Octet>, a: seq<Octet>, b: seq<Octet>)
    ensures Capped(Capped(raw, a), b) == Capped(raw, a + b)
  {
    if |raw| < RAW_CAP {
      var room := RAW_CAP - |raw|;
      if |a| >= room {
        assert (a + b)[..room] == a[..room];
      } else if |b| < room - |a| {
        assert (raw + a) + b == raw + (a + b);
      } else {
        assert (raw + a) + b[..room - |a|] == raw + (a + b)[..room];
      }
    }
  }

  /** However the bytes are cut into chunks, the receiver ends as if they had come in one piece. */
  lemma {:induction false} ChunkingDoesNotMatter(st: Stream, chunks: seq<seq<Octet>>)
    requires |st.raw| <= RAW_CAP
    ensures Run(st, chunks) == Write(st, Concat(chunks))
    decreases |chunks|
  {
    hide Write;
    if chunks == [] {
      WriteNothing(st);
    } else {
      var n := |chunks| - 1;
      ChunkingDoesNotMatter(st, chunks[..n]);
      WriteJoins(st, Concat(chunks[..n]), chunks[n]);
    }
  }

  lemma {:induction false} WriteNothing(st: Stream)
    ensures Write(st, []) == st
  {
  }

  // ----- the lines of a whole body, found by splitting it at its newlines

  /** The bytes without carriage returns. */
  function Clean(s: seq<Octet>): seq<Octet> {
    if s == [] then [] else (if s[0] == '\r' then [] else [s[0]]) + Clean(s[1..])
  }

  /** Where the first newline stands. */
  function Newline(s: seq<Octet>): (k: nat)
    ensures k <= |s|
    ensures k < |s| ==> s[k] == '\n'
    ensures forall j :: 0 <= j < k ==> s[j] != '\n'
  {
    if s == [] || s[0] == '\n' then 0 else 1 + Newline(s[1..])
  }

  /** One line from one stretch between newlines; an empty stretch gives none. */
  function LineOf(stretch: seq<Octet>): seq<Text> {
    if Clean(stretch) == [] then [] else [CString(Clean(stretch))]
  }

  /** The lines closed by a newline, and the cleaned bytes after the last newline. */
  function Split(s: seq<Octet>): (seq<Text>, seq<Octet>)
    decreases |s|
  {
    var k := Newline(s);
    if k == |s| then ([], Clean(s))
    else (LineOf(s[..k]) + Split(s[k + 1..]).0, Split(s[k + 1..]).1)
  }

  lemma {:induction false} CleanJoins(s: seq<Octet>, c: Octet)
    ensures Clean(s + [c]) == if c == '\r' then Clean(s) else Clean(s) + [c]
  {
    if s == [] {
      assert (s + [c])[1..] == [];
    } else {
      CleanJoins(s[1..], c);
      assert (s + [c])[1..] == s[1..] + [c];
    }
  }

  lemma {:induction false} FrameStretch(s: seq<Octet>, k: nat)
    requires k <= |s| && forall j :: 0 <= j < k ==> s[j] != '\n'
    ensures Frame([], s[..k]) == ([], Clean(s[..k]))
  {
    if k == 0 {
      assert s[..k] == [];
    } else {
      FrameStretch(s, k - 1);
      FrameStep([], s, k - 1);
      hide Frame;
      CleanJoins(s[..k - 1], s[k - 1]);
      assert s[..k - 1 + 1] == s[..k] && s[k - 1] != '\n';
      assert s[..k] == s[..k - 1] + [s[k - 1]];
    }
  }

  lemma {:induction false} FrameFirst(s: seq<Octet>, k: nat)
    requires k < |s| && s[k] == '\n' && forall j :: 0 <= j < k ==> s[j] != '\n'
    ensures Frame([], s[..k + 1]) == (LineOf(s[..k]), [])
  {
    hide Frame, Clean, CString;
    FrameStretch(s, k);
    FrameStep([], s, k);
    assert [] + LineOf(s[..k]) == LineOf(s[..k]);
  }

  /** The byte loop finds exactly the lines that splitting at newlines gives. */
  lemma {:induction false} FrameIsSplit(s: seq<Octet>)
    ensures Frame([], s) == Split(s)
    decreases |s|
  {
    hide Frame, Clean, CString, LineOf, Newline;
    var k := Newline(s);
    if k == |s| {
      FrameStretch(s, k);
      assert s[..k] == s;
    } else {
      FrameFirst(s, k);
      FrameIsSplit(s[k + 1..]);
      assert s == s[..k + 1] + s[k + 1..];
      FrameJoins([], s[..k + 1], s[k + 1..]);
    }
  }

  /** Streaming equals batch: over any chunking of a body, the raw capture is its first 4096 bytes, the
      lines processed are those between its newlines, and the open line is what follows the last. */
  lemma {:induction false} StreamingIsBatch(chunks: seq<seq<Octet>>)
    ensures var body := Concat(chunks); var end := Run(FRESH, chunks);
            && end.raw == body[..if |body| < 4096 then |body| else 4096]
            && end.line == Split(body).1
            && end.value == Assemble(NOTHING, Split(body).0)
  {
    hide Run, Concat, Frame, Split, Assemble;
    ChunkingDoesNotMatter(FRESH, chunks);
    FrameIsSplit(Concat(chunks));
  }
}
