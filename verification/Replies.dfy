/** The assembled blocks written back as JSON for the next request, and that nothing in them is lost. */
module Replies {
  import opened Options
  import opened CText
  import opened JsonScan
  import opened JsonGrammar
  import opened JsonStrings
  import opened Sse
  import opened SseBlocks
  import Splice

  const OPEN_TEXT: Text := "{\"type\":\"text\",\"text\":"
  const OPEN_TOOL: Text := "{\"type\":\"tool_use\",\"id\":"
  const THEN_NAME: Text := ",\"name\":"
  const THEN_INPUT: Text := ",\"input\":"
  const INPUT: Text := "input"

  function OrEmpty(t: Option<Text>): Text {
    if t.Some? then t.value else []
  }

  /** One block as an object. */
  function BlockText(b: Block): Text {
    match b
    case TextBlock(text) => OPEN_TEXT + Quoted(text) + "}"
    case ToolBlock(name, id, input) =>
      OPEN_TOOL + Quoted(OrEmpty(id)) + THEN_NAME + Quoted(OrEmpty(name)) + THEN_INPUT + input + "}"
  }

  function BlocksFrom(bs: seq<Block>, k: nat): Text
    requires k <= |bs|
    decreases |bs| - k
  {
    if k == |bs| then [] else (if k > 0 then COMMA else []) + BlockText(bs[k]) + BlocksFrom(bs, k + 1)
  }

  function BlocksText(bs: seq<Block>): Text {
    "[" + BlocksFrom(bs, 0) + "]"
  }

  method WriteBlock(out: Buf, b: Block)
    requires out.Valid()
    modifies out, out.data
    ensures out.Valid() && (out.data == old(out.data) || fresh(out.data))
    ensures out.Contents() == old(out.Contents()) + BlockText(b)
  {
    hide Quoted, Buf.Valid, Buf.Contents, OPEN_TEXT, OPEN_TOOL, THEN_NAME, THEN_INPUT;
    match b
    case TextBlock(text) =>
      out.Append(OPEN_TEXT);
      BufJsonStr(out, text);
      out.Char('}');
    case ToolBlock(name, id, input) =>
      out.Append(OPEN_TOOL);
      BufJsonStr(out, OrEmpty(id));
      out.Append(THEN_NAME);
      BufJsonStr(out, OrEmpty(name));
      out.Append(THEN_INPUT);
      out.Append(input);
      out.Char('}');
  }

  lemma {:induction false} BlocksStep(done: seq<Octet>, bs: seq<Block>, k: nat, whole: seq<Octet>)
    requires k < |bs| && done + BlocksFrom(bs, k) == whole
    ensures (done + (if k > 0 then COMMA else [])) + BlockText(bs[k]) + BlocksFrom(bs, k + 1) == whole
  {
    hide BlockText;
  }

  method BlocksToJson(bs: seq<Block>) returns (json: seq<Octet>)
    ensures json == BlocksText(bs)
  {
    hide BlockText, BlocksFrom, Buf.Valid, Buf.Contents;
    var out := new Buf();
    out.Char('[');
    ghost var whole := ['['] + BlocksFrom(bs, 0);
    for i := 0 to |bs|
      invariant out.Valid() && fresh(out) && fresh(out.data)
      invariant out.Contents() + BlocksFrom(bs, i) == whole
    {
      BlocksStep(out.Contents(), bs, i, whole);
      if i > 0 {
        out.Char(',');
      }
      WriteBlock(out, bs[i]);
    }
    NoMoreBlocks(bs);
    assert out.Contents() == whole;
    out.Char(']');
    json := out.Bytes();
  }

  lemma {:induction false} NoMoreBlocks(bs: seq<Block>)
    ensures BlocksFrom(bs, |bs|) == []
  {
  }

  // ----- the text as a syntax tree

  function Written(t: Text): Json {
    Str(EscapeFrom(t, 0))
  }

  /** The members of a block's object; v is the tool input as a tree. */
  function BlockMembers(b: Block, v: Json): Members {
    match b
    case TextBlock(text) => MoreMembers(Bare(TYPE, Str(TEXT)), LastMember(Bare(TEXT, Written(text))))
    case ToolBlock(name, id, input) =>
      MoreMembers(Bare(TYPE, Str(TOOL_USE)),
                  MoreMembers(Bare(ID, Written(OrEmpty(id))),
                              MoreMembers(Bare(NAME, Written(OrEmpty(name))), LastMember(Bare(INPUT, v)))))
  }

  /** The tool input is the text of a well-formed value. */
  predicate InputIs(b: Block, v: Json) {
    WellFormed(v) && (b.ToolBlock? ==> Render(v) == b.input)
  }

  lemma {:induction false} TextOpens()
    ensures OPEN_TEXT == "{" + (QUOTE + TYPE + QUOTE + COLON + (QUOTE + TEXT + QUOTE)) + COMMA
                         + (QUOTE + TEXT + QUOTE + COLON)
  {
  }

  lemma {:induction false} ToolOpens()
    ensures OPEN_TOOL == "{" + (QUOTE + TYPE + QUOTE + COLON + (QUOTE + TOOL_USE + QUOTE)) + COMMA
                         + (QUOTE + ID + QUOTE + COLON)
    ensures THEN_NAME == COMMA + (QUOTE + NAME + QUOTE + COLON)
    ensures THEN_INPUT == COMMA + (QUOTE + INPUT + QUOTE + COLON)
  {
  }

  lemma {:induction false} WrittenRenders(t: Text)
    ensures Render(Written(t)) == Quoted(t) && WellFormed(Written(t))
  {
    hide EscapeFrom, StringBody, PiecesFor, RenderPieces, ValidPieces;
    EmitterWritesPieces(t, 0);
    PiecesAreBody(PiecesFor(t)[0..]);
  }

  lemma {:induction false} StrRenders(t: Text)
    ensures Render(Str(t)) == QUOTE + t + QUOTE
  {
  }

  lemma {:induction false} TextShape(o: Text, a: Text, c: Text, b: Text, x: Text, e: Text)
    ensures (o + a + c + b) + x + e == o + (a + c + (b + x)) + e
  {
    Glue(o + a + c, b, x);
    Glue(o, a, c);
    Glue(o, a + c, b + x);
  }

  lemma {:induction false} TextText(b: Block)
    requires b.TextBlock?
    ensures BlockText(b) == OPEN_TEXT + Quoted(b.text) + "}"
  {
    hide Quoted, OPEN_TEXT;
  }

  lemma {:induction false} TextBlockRenders(b: Block, v: Json)
    requires b.TextBlock?
    ensures BlockText(b) == Render(Obj(BlockMembers(b, v)))
  {
    hide *;
    BareRenders(TYPE, Str(TEXT));
    BareRenders(TEXT, Written(b.text));
    WrittenRenders(b.text);
    StrRenders(TEXT);
    TextOpens();
    ObjectRenders(BlockMembers(b, v));
    TextMembersRender(b, v);
    TextText(b);
    TextShape("{", QUOTE + TYPE + QUOTE + COLON + (QUOTE + TEXT + QUOTE), COMMA, QUOTE + TEXT + QUOTE + COLON,
              Quoted(b.text), "}");
  }

  lemma {:induction false} TextMembersRender(b: Block, v: Json)
    requires b.TextBlock?
    ensures RenderMembers(BlockMembers(b, v)) ==
              RenderMember(Bare(TYPE, Str(TEXT))) + COMMA + RenderMember(Bare(TEXT, Written(b.text)))
  {
    hide Render, RenderMember, Written, COMMA;
  }

  lemma {:induction false} ObjectRenders(ms: Members)
    ensures Render(Obj(ms)) == "{" + RenderMembers(ms) + "}"
  {
  }

  lemma {:induction false} Glue(p: Text, q: Text, r: Text)
    ensures p + q + r == p + (q + r)
  {
  }

  /** Four names and values between braces, joined from the left and from the right. */
  lemma {:induction false} ToolShape(o: Text, a: Text, c: Text, b: Text, i: Text, d: Text, n: Text, f: Text, x: Text,
                                     e: Text)
    ensures (o + a + c + b) + i + (c + d) + n + (c + f) + x + e
            == o + (a + c + ((b + i) + c + ((d + n) + c + (f + x)))) + e
  {
    var u := f + x;
    var w := (d + n) + c + u;
    var y := (b + i) + c + w;
    var left := o + a + c;
    Glue(left, b, i);
    var left2 := left + (b + i);
    Glue(left2, c, d);
    Glue(left2 + c, d, n);
    var left3 := left2 + c + (d + n);
    Glue(left3, c, f);
    Glue(left3 + c, f, x);
    assert left3 + c + u == left2 + c + w by {
      Glue(left2 + c, d + n, c);
      Glue(left2 + c, (d + n) + c, u);
    }
    assert left2 + c + w == left + y by {
      Glue(left, b + i, c);
      Glue(left, (b + i) + c, w);
    }
    assert left + y == o + (a + c + y) by {
      Glue(o, a, c);
      Glue(o, a + c, y);
    }
  }

  lemma {:induction false} ToolBlockRenders(b: Block, v: Json)
    requires b.ToolBlock? && InputIs(b, v)
    ensures BlockText(b) == Render(Obj(BlockMembers(b, v)))
  {
    var id, name := OrEmpty(b.id), OrEmpty(b.name);
    hide *;
    BareRenders(TYPE, Str(TOOL_USE));
    BareRenders(ID, Written(id));
    BareRenders(NAME, Written(name));
    BareRenders(INPUT, v);
    WrittenRenders(id);
    WrittenRenders(name);
    StrRenders(TOOL_USE);
    ToolOpens();
    ObjectRenders(BlockMembers(b, v));
    ToolMembersRender(b, v);
    ToolText(b, v);
    ToolShape("{", QUOTE + TYPE + QUOTE + COLON + (QUOTE + TOOL_USE + QUOTE), COMMA,
              QUOTE + ID + QUOTE + COLON, Quoted(id),
              QUOTE + NAME + QUOTE + COLON, Quoted(name), QUOTE + INPUT + QUOTE + COLON, b.input, "}");
  }

  lemma {:induction false} ToolText(b: Block, v: Json)
    requires b.ToolBlock? && InputIs(b, v)
    ensures Render(v) == b.input
    ensures BlockText(b) ==
              OPEN_TOOL + Quoted(OrEmpty(b.id)) + THEN_NAME + Quoted(OrEmpty(b.name)) + THEN_INPUT + b.input + "}"
  {
    hide Quoted, Render, OPEN_TOOL, THEN_NAME, THEN_INPUT;
  }

  lemma {:induction false} MoreRenders(m: Member, rest: Members)
    ensures RenderMembers(MoreMembers(m, rest)) == RenderMember(m) + COMMA + RenderMembers(rest)
    ensures RenderMembers(LastMember(m)) == RenderMember(m)
  {
  }

  lemma {:induction false} ToolMembersRender(b: Block, v: Json)
    requires b.ToolBlock?
    ensures RenderMembers(BlockMembers(b, v)) ==
              RenderMember(Bare(TYPE, Str(TOOL_USE))) + COMMA
              + (RenderMember(Bare(ID, Written(OrEmpty(b.id)))) + COMMA
                 + (RenderMember(Bare(NAME, Written(OrEmpty(b.name)))) + COMMA + RenderMember(Bare(INPUT, v))))
  {
    hide Render, RenderMember, RenderMembers, Written, COMMA;
    var id, name := Bare(ID, Written(OrEmpty(b.id))), Bare(NAME, Written(OrEmpty(b.name)));
    var last := LastMember(Bare(INPUT, v));
    MoreRenders(last.m, last);
    MoreRenders(name, last);
    MoreRenders(id, MoreMembers(name, last));
    MoreRenders(Bare(TYPE, Str(TOOL_USE)), MoreMembers(id, MoreMembers(name, last)));
  }

  lemma {:induction false} BlockRenders(b: Block, v: Json)
    requires InputIs(b, v)
    ensures BlockText(b) == Render(Obj(BlockMembers(b, v)))
  {
    hide BlockText, Render, BlockMembers, InputIs;
    if b.TextBlock? {
      TextBlockRenders(b, v);
    } else {
      ToolBlockRenders(b, v);
    }
  }

  lemma {:induction false} PlainName(t: Text)
    requires t in {TYPE, TEXT, ID, NAME, INPUT, TOOL_USE}
    ensures StringBody(t) && EscapeFrom(t, 0) == t
  {
    Splice.PlainBody(t);
    Splice.PlainEscapes(t, 0);
    assert t[0..] == t;
  }

  lemma {:induction false} BlockMemberWellFormed(key: Text, v: Json)
    requires key in {TYPE, TEXT, ID, NAME, INPUT} && WellFormed(v)
    ensures WellFormedMember(Bare(key, v))
  {
    hide WellFormed, StringBody, TYPE, TEXT, ID, NAME, INPUT;
    PlainName(key);
    BareWellFormed(key, v);
  }

  lemma {:induction false} MoreWellFormed(m: Member, rest: Members)
    requires WellFormedMember(m) && WellFormedMembers(rest) && !rest.NoMembers?
    ensures WellFormedMembers(MoreMembers(m, rest)) && WellFormedMembers(LastMember(m))
  {
    hide WellFormedMember;
  }

  lemma {:induction false} LastWellFormed(m: Member)
    requires WellFormedMember(m)
    ensures WellFormedMembers(LastMember(m))
  {
    hide WellFormedMember;
  }

  lemma {:induction false} MembersWellFormed(b: Block, v: Json)
    requires InputIs(b, v)
    ensures WellFormedMembers(BlockMembers(b, v))
  {
    hide WellFormedMember, WellFormedMembers, Written, Render, TYPE, TEXT, ID, NAME, INPUT, TOOL_USE, EscapeFrom;
    PlainName(TEXT);
    PlainName(TOOL_USE);
    BlockMemberWellFormed(TYPE, Str(TEXT));
    BlockMemberWellFormed(TYPE, Str(TOOL_USE));
    if b.TextBlock? {
      WrittenRenders(b.text);
      BlockMemberWellFormed(TEXT, Written(b.text));
      LastWellFormed(Bare(TEXT, Written(b.text)));
      MoreWellFormed(Bare(TYPE, Str(TEXT)), LastMember(Bare(TEXT, Written(b.text))));
    } else {
      WrittenRenders(OrEmpty(b.id));
      WrittenRenders(OrEmpty(b.name));
      BlockMemberWellFormed(ID, Written(OrEmpty(b.id)));
      BlockMemberWellFormed(NAME, Written(OrEmpty(b.name)));
      BlockMemberWellFormed(INPUT, v);
      var last := LastMember(Bare(INPUT, v));
      LastWellFormed(Bare(INPUT, v));
      var three := MoreMembers(Bare(NAME, Written(OrEmpty(b.name))), last);
      MoreWellFormed(Bare(NAME, Written(OrEmpty(b.name))), last);
      var two := MoreMembers(Bare(ID, Written(OrEmpty(b.id))), three);
      MoreWellFormed(Bare(ID, Written(OrEmpty(b.id))), three);
      MoreWellFormed(Bare(TYPE, Str(TOOL_USE)), two);
    }
  }

  lemma {:induction false} NamesDiffer()
    ensures TYPE != TEXT && TYPE != ID && TYPE != NAME && TYPE != INPUT && ID != NAME && ID != INPUT && NAME != INPUT
  {
    assert TYPE[0] != NAME[0] && TYPE[1] != TEXT[1] && |ID| == 2 && |NAME| == 4 && |INPUT| == 5;
  }

  /** A block written as JSON is an object of its own. */
  lemma {:induction false} BlockIsObject(b: Block, v: Json)
    requires InputIs(b, v)
    ensures IsObjectText(BlockText(b), [], BlockMembers(b, v))
  {
    hide BlockText, Render, BlockMembers, InputIs, WellFormed, IsObjectText;
    BlockRenders(b, v);
    MembersWellFormed(b, v);
    Splice.ObjectWellFormed(BlockMembers(b, v));
    WholeObjectText(BlockMembers(b, v));
  }

  lemma {:induction false} FoundInLastMember(m: Member)
    ensures ValueFound(LastMember(m), m.key, m.v)
  {
    hide RenderName;
  }

  lemma {:induction false} FoundInMore(m: Member, rest: Members, key: Text, v: Json)
    ensures ValueFound(MoreMembers(m, rest), m.key, m.v)
    ensures m.key != key && ValueFound(rest, key, v) ==> ValueFound(MoreMembers(m, rest), key, v)
  {
    hide RenderName, RenderMember;
  }

  /** What lookup finds in the members of a text block, and in those of a tool block. */
  lemma {:induction false} TextLookups(b: Block, v: Json)
    requires b.TextBlock?
    ensures var ms := BlockMembers(b, v);
            && ValueFound(ms, TYPE, Str(TEXT)) && ValueFound(ms, TEXT, Written(b.text))
  {
    hide ValueFound, Written, TYPE, TEXT;
    NamesDiffer();
    var last := LastMember(Bare(TEXT, Written(b.text)));
    FoundInLastMember(last.m);
    FoundInMore(Bare(TYPE, Str(TEXT)), last, TEXT, Written(b.text));
  }

  lemma {:induction false} ToolLookups(b: Block, v: Json)
    requires b.ToolBlock?
    ensures var ms := BlockMembers(b, v);
            && ValueFound(ms, TYPE, Str(TOOL_USE)) && ValueFound(ms, ID, Written(OrEmpty(b.id)))
            && ValueFound(ms, NAME, Written(OrEmpty(b.name))) && ValueFound(ms, INPUT, v)
  {
    hide ValueFound, Written, TYPE, ID, NAME, INPUT, TOOL_USE;
    NamesDiffer();
    var id, name := Written(OrEmpty(b.id)), Written(OrEmpty(b.name));
    var last := LastMember(Bare(INPUT, v));
    FoundInLastMember(last.m);
    var three := MoreMembers(Bare(NAME, name), last);
    FoundInMore(Bare(NAME, name), last, INPUT, v);
    var two := MoreMembers(Bare(ID, id), three);
    FoundInMore(Bare(ID, id), three, NAME, name);
    FoundInMore(Bare(ID, id), three, INPUT, v);
    var type_ := Bare(TYPE, Str(TOOL_USE));
    FoundInMore(type_, two, ID, id);
    FoundInMore(type_, two, NAME, name);
    FoundInMore(type_, two, INPUT, v);
  }

  predicate ValueFound(ms: Members, key: Text, v: Json) {
    Lookup(ms, key).Some? && Lookup(ms, key).value.0 == v
  }

  lemma {:induction false} FoundStringReads(s: Text, ms: Members, key: Text, t: Text)
    requires IsObjectText(s, [], ms) && ValueFound(ms, key, Written(t))
    ensures StringValue(s, key) == Some(t)
  {
    hide IsObjectText, Lookup, EscapeFrom, StringValue;
    EmittedStringComesBack(s, [], ms, key, t, Lookup(ms, key).value.1);
  }

  lemma {:induction false} FoundValueReads(s: Text, ms: Members, key: Text, v: Json)
    requires IsObjectText(s, [], ms) && ValueFound(ms, key, v)
    ensures Raw(s, key) == Some(Render(v))
  {
    hide IsObjectText, Lookup, Render, Raw;
    LookupInObject(s, [], ms, key);
  }

  /** Every text block reads back as it was assembled, whatever bytes its text holds. */
  lemma {:induction false} TextBlockReadsBack(b: Block)
    requires b.TextBlock?
    ensures StringValue(BlockText(b), TYPE) == Some(TEXT) && StringValue(BlockText(b), TEXT) == Some(b.text)
  {
    hide *;
    var v := Obj(NoMembers([]));
    EmptyObjectIsInput(b);
    BlockIsObject(b, v);
    TextLookups(b, v);
    PlainWritten(TEXT);
    FoundStringReads(BlockText(b), BlockMembers(b, v), TYPE, TEXT);
    FoundStringReads(BlockText(b), BlockMembers(b, v), TEXT, b.text);
  }

  lemma {:induction false} EmptyObjectIsInput(b: Block)
    requires b.TextBlock?
    ensures InputIs(b, Obj(NoMembers([])))
  {
  }

  lemma {:induction false} PlainWritten(t: Text)
    requires t in {TYPE, TEXT, ID, NAME, INPUT, TOOL_USE}
    ensures Written(t) == Str(t)
  {
    hide EscapeFrom;
    PlainName(t);
  }

  /** Every tool block whose input is well-formed JSON reads back: its name, its id and the very bytes of its
      input. */
  lemma {:induction false} ToolBlockReadsBack(b: Block, v: Json)
    requires b.ToolBlock? && WellFormed(v) && Render(v) == b.input
    ensures var s := BlockText(b);
            && StringValue(s, TYPE) == Some(TOOL_USE) && StringValue(s, ID) == Some(OrEmpty(b.id))
            && StringValue(s, NAME) == Some(OrEmpty(b.name)) && Raw(s, INPUT) == Some(b.input)
  {
    hide StringValue, Raw, BlockText, BlockMembers, WellFormed, Render, Written, IsObjectText, ValueFound;
    hide TYPE, ID, NAME, INPUT, TOOL_USE;
    BlockIsObject(b, v);
    ToolLookups(b, v);
    PlainWritten(TOOL_USE);
    var s, ms := BlockText(b), BlockMembers(b, v);
    FoundStringReads(s, ms, TYPE, TOOL_USE);
    FoundStringReads(s, ms, ID, OrEmpty(b.id));
    FoundStringReads(s, ms, NAME, OrEmpty(b.name));
    FoundValueReads(s, ms, INPUT, v);
  }

  // ----- the array

  function ItemsFrom(bs: seq<Block>, vs: seq<Json>, k: nat): Items
    requires k <= |bs| == |vs|
    decreases |bs| - k
  {
    if k == |bs| then NoItems([])
    else
      var o := Obj(BlockMembers(bs[k], vs[k]));
      if k + 1 == |bs| then LastItem([], o, []) else MoreItems([], o, [], ItemsFrom(bs, vs, k + 1))
  }

  predicate InputsAre(bs: seq<Block>, vs: seq<Json>) {
    |bs| == |vs| && forall k :: 0 <= k < |bs| ==> InputIs(bs[k], vs[k])
  }

  lemma {:induction false} ItemsRender(bs: seq<Block>, vs: seq<Json>, k: nat)
    requires InputsAre(bs, vs) && k <= |bs|
    ensures WellFormedItems(ItemsFrom(bs, vs, k))
    ensures BlocksFrom(bs, k) == (if 0 < k < |bs| then COMMA else []) + RenderItems(ItemsFrom(bs, vs, k))
    decreases |bs| - k
  {
    hide BlockText, BlockMembers, InputIs, InputsAre, WellFormedMembers, COMMA, Render;
    if k < |bs| {
      InputOf(bs, vs, k);
      BlockRenders(bs[k], vs[k]);
      MembersWellFormed(bs[k], vs[k]);
      ItemsRender(bs, vs, k + 1);
      ItemsStep(bs, vs, k);
    } else {
      NoItemsLeft(bs, vs);
    }
  }

  lemma {:induction false} InputOf(bs: seq<Block>, vs: seq<Json>, k: nat)
    requires InputsAre(bs, vs) && k < |bs|
    ensures |bs| == |vs| && InputIs(bs[k], vs[k])
  {
    hide InputIs;
  }

  lemma {:induction false} NoItemsLeft(bs: seq<Block>, vs: seq<Json>)
    requires InputsAre(bs, vs)
    ensures WellFormedItems(ItemsFrom(bs, vs, |bs|))
    ensures BlocksFrom(bs, |bs|) == [] + RenderItems(ItemsFrom(bs, vs, |bs|))
  {
  }

  lemma {:induction false} ItemsStep(bs: seq<Block>, vs: seq<Json>, k: nat)
    requires k < |bs| == |vs| && WellFormedMembers(BlockMembers(bs[k], vs[k]))
    requires BlockText(bs[k]) == Render(Obj(BlockMembers(bs[k], vs[k])))
    requires WellFormedItems(ItemsFrom(bs, vs, k + 1))
    requires BlocksFrom(bs, k + 1) == (if k + 1 < |bs| then COMMA else []) + RenderItems(ItemsFrom(bs, vs, k + 1))
    ensures WellFormedItems(ItemsFrom(bs, vs, k))
    ensures BlocksFrom(bs, k) == (if 0 < k then COMMA else []) + RenderItems(ItemsFrom(bs, vs, k))
  {
    hide BlockText, BlockMembers, WellFormedMembers, COMMA, Render;
    var o := Obj(BlockMembers(bs[k], vs[k]));
    assert WellFormed(o);
    var head := if 0 < k then COMMA else [];
    if k + 1 == |bs| {
      assert BlocksFrom(bs, k + 1) == [];
      assert RenderItems(ItemsFrom(bs, vs, k)) == [] + Render(o) + [];
    } else {
      var rest := ItemsFrom(bs, vs, k + 1);
      assert RenderItems(ItemsFrom(bs, vs, k)) == [] + Render(o) + [] + COMMA + RenderItems(rest);
      assert head + Render(o) + (COMMA + RenderItems(rest)) == head + ([] + Render(o) + [] + COMMA + RenderItems(rest));
    }
  }

  /** The blocks written for the next request are one well-formed JSON array of one object a block. */
  lemma {:induction false} BlocksAreArray(bs: seq<Block>, vs: seq<Json>)
    requires InputsAre(bs, vs)
    ensures var v := Arr(ItemsFrom(bs, vs, 0)); WellFormed(v) && BlocksText(bs) == Render(v)
  {
    hide BlocksFrom, RenderItems, WellFormedItems, InputsAre;
    ItemsRender(bs, vs, 0);
  }
}
