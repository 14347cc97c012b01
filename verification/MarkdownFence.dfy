/** Fenced text is shown byte for byte. */
module MarkdownFence {
  import opened CText
  import opened Markdown
  import opened MarkdownRun

  /** Inside a fence, past its language tag. */
  predicate InFence(m: Md) {
    Sane(m) && m.style.fence && !m.side.langCol
  }

  /** What has been written, and the ticks still held back. */
  function Shown(m: Md): seq<Octet> {
    m.out + Times('`', m.marks.ticks)
  }

  /** The run of ticks at the end. */
  function Trail(s: seq<Octet>): nat {
    if s == [] || s[|s| - 1] != '`' then 0 else 1 + Trail(s[..|s| - 1])
  }

  /** After t ticks and this text, no other byte comes right after three ticks or more. */
  predicate NoClose(t: nat, text: Text) {
    forall j :: 0 <= j < |text| && text[j] != '`' ==> Trail(Times('`', t) + text[..j]) < 3
  }

  lemma {:induction false} FenceReaches(e: Env, m: Md, c: Byte)
    requires InFence(m)
    ensures Examine(e, m, c) == AfterLang(e, m, c) && NoMarks(m)
  {
    hide AfterLang;
    assert !InCommand(m) && m.side.supSub == 0;
    assert AfterBrace(e, m, c) == AfterLatex(e, m, c);
  }

  lemma {:induction false} OneMoreTick(n: nat)
    ensures Times('`', n) + ['`'] == Times('`', n + 1)
  {
  }

  /** A byte inside a fence: held back when it is a tick, and written after the ticks held back when it is
      any other byte and they are fewer than three. */
  lemma {:induction false} FenceByte(e: Env, m: Md, c: Byte)
    requires InFence(m) && (c != '`' ==> m.marks.ticks < 3)
    ensures var n := Consume(e, m, c);
            && InFence(n) && Shown(n) == Shown(m) + [c]
            && n.marks == m.marks.(ticks := if c == '`' then m.marks.ticks + 1 else 0)
            && n.style == m.style && n.tex == m.tex && n.side == m.side && n.head == m.head.(sol := n.head.sol)
  {
    hide Sane, Examine, TickPart, FencePart, CodePart, AfterCode, ResolveTicks, OneTick;
    FenceReaches(e, m, c);
    FenceNotCommand(m);
    AfterLangKeeps(e, m, c);
    if c == '`' {
      FenceTick(e, m);
    } else if m.marks.ticks == 0 {
      FenceLiteral(e, m, c);
    } else {
      FenceTicksThen(e, m, c);
    }
  }

  lemma {:induction false} FenceNotCommand(m: Md)
    requires InFence(m)
    ensures !InCommand(m) && m.side.supSub == 0
  {
  }

  lemma {:induction false} FenceTick(e: Env, m: Md)
    requires InFence(m) && NoMarks(m)
    ensures var t := AfterLang(e, m, '`');
            t.Done? && t.m == m.(marks := m.marks.(ticks := m.marks.ticks + 1)) && Shown(t.m) == Shown(m) + ['`']
  {
    hide Sane, ResolveStars, ResolveTildes, FlushHashes, AfterCode;
    OneMoreTick(m.marks.ticks);
    assert AfterLang(e, m, '`') == Done(OneTick(e, m));
  }

  lemma {:induction false} FenceLiteral(e: Env, m: Md, c: Byte)
    requires InFence(m) && m.marks.ticks == 0 && c != '`'
    ensures var t := AfterLang(e, m, c);
            && t.Done? && t.m == m.(out := m.out + [c], head := m.head.(sol := c == '\n'))
            && Shown(t.m) == Shown(m) + [c]
  {
    hide Sane, AfterCode, TickPart;
    assert Times('`', 0) == [];
  }

  lemma {:induction false} FenceTicksThen(e: Env, m: Md, c: Byte)
    requires InFence(m) && 0 < m.marks.ticks < 3 && c != '`'
    ensures var t := AfterLang(e, m, c);
            && t.Done? && Shown(t.m) == Shown(m) + [c]
            && t.m == m.(out := t.m.out, marks := m.marks.(ticks := 0), head := m.head.(sol := c == '\n'))
  {
    hide Sane, AfterCode, ResolveTicks;
    var n := ResolveTicks(e, m);
    assert n.style == m.style;
    assert TickPart(e, m, c) == Done(Literal(n, c));
    assert Times('`', 0) == [];
  }

  /** Any other byte after three ticks or more ends the fence. */
  lemma {:induction false} FenceCloses(e: Env, m: Md, c: Byte)
    requires InFence(m) && m.marks.ticks >= 3 && c != '`'
    ensures !Consume(e, m, c).style.fence
  {
    hide Sane, Examine, ResolveTicks, AfterCode, FencePart;
    FenceReaches(e, m, c);
    FenceNotCommand(m);
    var n := ResolveTicks(e, m);
    assert FencePart(m, c) == On(m) by {
      FencePasses(m, c);
    }
    TickKeeps(e, m, c);
    if TickPart(e, m, c).On? {
      if !n.style.code {
        AfterCodeKeeps(e, n, c);
      }
    }
  }

  lemma {:induction false} FencePasses(m: Md, c: Byte)
    requires m.marks.ticks > 0
    ensures FencePart(m, c) == On(m)
  {
  }

  lemma {:induction false} TrailMore(s: seq<Octet>, c: Octet)
    ensures Trail(s + [c]) == if c == '`' then Trail(s) + 1 else 0
  {
    assert (s + [c])[..|s|] == s;
  }

  lemma {:induction false} TrailOfTicks(t: nat)
    ensures Trail(Times('`', t)) == t
  {
    if t > 0 {
      TrailOfTicks(t - 1);
      OneMoreTick(t - 1);
      TrailMore(Times('`', t - 1), '`');
    } else {
      assert Times('`', 0) == [];
    }
  }

  /** Streaming any text without a closing run of ticks into a fence shows it byte for byte, the ticks
      still held back included; and it stays in the fence. */
  lemma {:induction false} FencedIsVerbatim(e: Env, m: Md, text: Text)
    requires InFence(m) && NoClose(m.marks.ticks, text)
    ensures var n := Feed(e, m, text);
            && InFence(n) && Shown(n) == Shown(m) + text
            && n.marks == m.marks.(ticks := Trail(Times('`', m.marks.ticks) + text))
            && n.style == m.style && n.tex == m.tex && n.side == m.side && n.head == m.head.(sol := n.head.sol)
    decreases |text|
  {
    hide Sane, Consume, Trail, Shown;
    if text == [] {
      FencedNothing(e, m);
      assert Times('`', m.marks.ticks) + text == Times('`', m.marks.ticks);
      TrailOfTicks(m.marks.ticks);
    } else {
      var k := |text| - 1;
      var front, c := text[..k], text[k];
      NoClosePrefix(m.marks.ticks, text);
      FencedIsVerbatim(e, m, front);
      TrailMore(Times('`', m.marks.ticks) + front, c);
      assert text == front + [c];
      assert Times('`', m.marks.ticks) + text == (Times('`', m.marks.ticks) + front) + [c];
      FenceByte(e, Feed(e, m, front), c);
      assert (Shown(m) + front) + [c] == Shown(m) + text;
    }
  }

  lemma {:induction false} FencedNothing(e: Env, m: Md)
    requires InFence(m)
    ensures Feed(e, m, []) == m && Shown(m) + [] == Shown(m)
  {
  }

  lemma {:induction false} NoClosePrefix(t: nat, text: Text)
    requires NoClose(t, text) && text != []
    ensures NoClose(t, text[..|text| - 1])
    ensures text[|text| - 1] != '`' ==> Trail(Times('`', t) + text[..|text| - 1]) < 3
  {
    hide Trail;
    var k := |text| - 1;
    forall j | 0 <= j < k && text[..k][j] != '`' ensures Trail(Times('`', t) + text[..k][..j]) < 3 {
      assert text[..k][..j] == text[..j];
    }
  }

  /** The fence stays open through the whole of a text exactly when the text has no closing run. */
  lemma {:induction false} FenceStaysExactlyWhen(e: Env, m: Md, text: Text)
    requires InFence(m)
    ensures (forall k :: 0 <= k <= |text| ==> Feed(e, m, text[..k]).style.fence) <==> NoClose(m.marks.ticks, text)
  {
    hide Sane, Feed, Trail, Consume;
    if NoClose(m.marks.ticks, text) {
      forall k | 0 <= k <= |text| ensures Feed(e, m, text[..k]).style.fence {
        NoCloseTo(m.marks.ticks, text, k);
        FencedIsVerbatim(e, m, text[..k]);
      }
    } else {
      var j := FirstClose(m.marks.ticks, text);
      FencedIsVerbatim(e, m, text[..j]);
      FeedMore(e, m, text, j);
      FenceCloses(e, Feed(e, m, text[..j]), text[j]);
      assert !Feed(e, m, text[..j + 1]).style.fence;
    }
  }

  lemma {:induction false} NoCloseTo(t: nat, text: Text, k: nat)
    requires NoClose(t, text) && k <= |text|
    ensures NoClose(t, text[..k])
  {
    hide Trail;
    forall j | 0 <= j < k && text[..k][j] != '`' ensures Trail(Times('`', t) + text[..k][..j]) < 3 {
      assert text[..k][..j] == text[..j];
    }
  }

  lemma {:induction false} FirstClose(t: nat, text: Text) returns (j: nat)
    requires !NoClose(t, text)
    ensures j < |text| && text[j] != '`' && Trail(Times('`', t) + text[..j]) >= 3 && NoClose(t, text[..j])
    decreases |text|
  {
    hide Trail;
    j :| 0 <= j < |text| && text[j] != '`' && Trail(Times('`', t) + text[..j]) >= 3;
    if !NoClose(t, text[..j]) {
      var i := FirstClose(t, text[..j]);
      assert text[..j][..i] == text[..i] && text[..j][i] == text[i];
      j := i;
    }
  }

  /** The end of a block inside a fence writes the ticks that were held back, then what the line start
      before the fence held back. */
  lemma {:induction false} EndShowsTheRest(e: Env, m: Md, text: Text)
    requires InFence(m) && NoClose(m.marks.ticks, text) && !e.color
    ensures Ended(e, Feed(e, m, text)).out == Shown(m) + text + Held(m.head)
  {
    hide Sane, Feed, Trail, Consume, NoClose;
    FencedIsVerbatim(e, m, text);
    EndInFence(e, Feed(e, m, text));
  }

  lemma {:induction false} EndInFence(e: Env, m: Md)
    requires InFence(m) && !e.color
    ensures Ended(e, m).out == Shown(m) + Held(m.head)
  {
    hide HeldDigits;
    assert NoMarks(m) && !InCommand(m);
    assert Times('*', 0) == [] && Times('~', 0) == [] && Times('#', 0) == [];
    assert Counted(m.marks) == Times('`', m.marks.ticks);
    assert m.out + (Times('`', m.marks.ticks) + Held(m.head)) == Shown(m) + Held(m.head);
  }

  // ----- a whole fence

  /** Between marks, at no held-back line start. */
  predicate Quiet(m: Md) {
    && Sane(m) && Open(m) && NoMarks(m) && m.marks.dollars == 0
    && m.head.dashes == 0 && !m.head.gt && m.head.digits == [] && !m.head.dot
  }

  /** The rest of a line that starts with three ticks: in math mode the byte after the ticks is taken for the
      mark of a superscript or subscript first. */
  predicate TagText(m: Md, tag: Text) {
    '\n' !in tag && (tag != [] ==> tag[0] != '`' && (m.style.math ==> tag[0] != '^' && tag[0] != '_'))
  }

  function Tag(tag: Text): Text {
    if |tag| <= 30 then tag else tag[..30]
  }

  const TICKS: Text := "```"
  const NEWLINE: Text := "\n"

  /** A tick outside a fence. */
  lemma {:induction false} OuterTick(e: Env, m: Md)
    requires Sane(m) && !InCommand(m) && !m.style.fence && !m.side.langCol && m.side.supSub == 0 && NoMarks(m)
    ensures Consume(e, m, '`') == m.(marks := m.marks.(ticks := m.marks.ticks + 1))
  {
    hide Sane, ResolveStars, ResolveTildes, FlushHashes, AfterCode;
    assert AfterLang(e, m, '`') == Done(OneTick(e, m));
    assert AfterLatex(e, m, '`') == AfterLang(e, m, '`');
    assert AfterBrace(e, m, '`') == AfterLatex(e, m, '`');
  }

  lemma {:induction false} SaneTicks(m: Md, t: nat)
    requires Sane(m) && NoMarks(m) && !InCommand(m) && !m.side.langCol
    ensures Sane(m.(marks := m.marks.(ticks := t)))
  {
  }

  lemma {:induction false} ThreeTicks(e: Env, m: Md)
    requires Sane(m) && m.marks.ticks == 0
    requires !InCommand(m) && !m.style.fence && !m.side.langCol && m.side.supSub == 0 && NoMarks(m)
    ensures Feed(e, m, TICKS) == m.(marks := m.marks.(ticks := 3))
  {
    hide Sane, Consume, InCommand;
    SaneTicks(m, 1);
    SaneTicks(m, 2);
    OuterTick(e, m);
    OuterTick(e, m.(marks := m.marks.(ticks := 1)));
    OuterTick(e, m.(marks := m.marks.(ticks := 2)));
    NothingFed(e, m);
    assert TICKS[..0] == [] && TICKS[..3] == TICKS;
    FeedMore(e, m, TICKS, 0);
    FeedMore(e, m, TICKS, 1);
    FeedMore(e, m, TICKS, 2);
  }

  /** The state right after a fence has opened, without colour. */
  function Opened(m: Md): Md {
    m.(marks := m.marks.(ticks := 0), style := m.style.(fence := true), side := m.side.(lang := [], langCol := true))
  }

  lemma {:induction false} OpenedIsSane(m: Md)
    requires Sane(m) && !InCommand(m) && m.side.supSub == 0 && NoMarks(m)
    ensures Sane(Opened(m)) && !InCommand(Opened(m))
  {
  }

  lemma {:induction false} TagByte(e: Env, m: Md, c: Byte)
    requires Sane(m) && m.side.langCol && !InCommand(m)
    ensures LangPart(e, m, c).Done? && Examine(e, m, c) == LangPart(e, m, c) && Consume(e, m, c) == LangPart(e, m, c).m
  {
    hide AfterLang, Ansi, InBounds;
    assert m.side.supSub == 0 && m.style.fence;
    assert AfterBrace(e, m, c) == AfterLatex(e, m, c);
  }

  /** The byte after three ticks opens a fence and is then looked at again, as part of the tag. */
  lemma {:induction false} ByteAfterTicks(e: Env, m: Md, c: Byte)
    requires Sane(m) && !InCommand(m) && !m.style.fence && m.side.supSub == 0 && NoMarks(m) && !m.side.langCol
    requires m.marks.ticks >= 3 && c != '`' && (m.style.math ==> c != '^' && c != '_') && !e.color
    ensures Sane(Opened(m)) && Consume(e, m, c) == Consume(e, Opened(m), c)
  {
    hide Sane, ResolveTicks, LangPart;
    OpenedIsSane(m);
    ResolvesToOpened(e, m);
    assert AfterLang(e, m, c) == Again(Opened(m));
    assert LangPart(e, m, c) == On(m) by {
      NoTag(e, m, c);
    }
    assert AfterLatex(e, m, c) == AfterLang(e, m, c);
    assert Examine(e, m, c) == AfterLatex(e, m, c) by {
      NotReading(e, m, c);
    }
    hide *;
    SecondLookInTag(e, m, c);
  }

  lemma {:induction false} SecondLookInTag(e: Env, m: Md, c: Byte)
    requires Sane(m) && Sane(Opened(m)) && !InCommand(Opened(m)) && Examine(e, m, c) == Again(Opened(m))
    ensures Consume(e, m, c) == Consume(e, Opened(m), c)
  {
    hide Sane, Examine, LangPart;
    TagByte(e, Opened(m), c);
  }

  lemma {:induction false} NoTag(e: Env, m: Md, c: Byte)
    requires !m.side.langCol
    ensures LangPart(e, m, c) == On(m)
  {
  }

  lemma {:induction false} ResolvesToOpened(e: Env, m: Md)
    requires m.marks.ticks >= 3 && !m.style.fence && !e.color
    ensures ResolveTicks(e, m) == Opened(m)
  {
  }

  /** Where the first byte leads to the same state, the whole text does. */
  lemma {:induction false} SameFirstByte(e: Env, m: Md, n: Md, text: Text)
    requires Sane(m) && Sane(n) && text != [] && Consume(e, m, text[0]) == Consume(e, n, text[0])
    ensures Feed(e, m, text) == Feed(e, n, text)
    decreases |text|
  {
    hide Sane, Consume;
    var k := |text| - 1;
    if k == 0 {
      assert text[..0] == [];
    } else {
      assert text[..k][0] == text[0];
      SameFirstByte(e, m, n, text[..k]);
    }
  }

  lemma {:induction false} TagRead(e: Env, m: Md, tag: Text)
    requires Sane(m) && m.side.langCol && m.side.lang == [] && !InCommand(m) && '\n' !in tag
    ensures Feed(e, m, tag) == m.(side := m.side.(lang := Tag(tag)))
    decreases |tag|
  {
    hide Sane, Consume, InCommand;
    if tag == [] {
      NothingFed(e, m);
    } else {
      var k := |tag| - 1;
      TagRead(e, m, tag[..k]);
      FeedMore(e, m, tag, k);
      assert tag[..k + 1] == tag;
      var n := Feed(e, m, tag[..k]);
      StillReadingTag(m, n);
      TagByte(e, n, tag[k]);
      TagGrows(tag);
      assert tag[k] in tag;
    }
  }

  lemma {:induction false} StillReadingTag(m: Md, n: Md)
    requires !InCommand(m) && n.tex == m.tex
    ensures !InCommand(n)
  {
  }

  lemma {:induction false} TagGrows(tag: Text)
    requires tag != []
    ensures var k := |tag| - 1;
            Tag(tag) == if |Tag(tag[..k])| < LANG_MAX then Tag(tag[..k]) + [tag[k]] else Tag(tag[..k])
  {
    var k := |tag| - 1;
    if k >= LANG_MAX {
      assert tag[..k][..LANG_MAX] == tag[..LANG_MAX];
    }
  }

  lemma {:induction false} TagLineEnds(e: Env, m: Md)
    requires Sane(m) && m.side.langCol && !InCommand(m) && !e.color
    ensures var n := Consume(e, m, '\n');
            && InFence(n)
            && n == m.(out := m.out + m.side.lang + NEWLINE, side := m.side.(langCol := false),
                       head := m.head.(sol := true))
  {
    hide InBounds, Ansi;
    TagByte(e, m, '\n');
    assert m.out + [] == m.out;
  }

  /** Three ticks, a tag and a newline open a fence and show the first 30 bytes of the tag. */
  lemma {:induction false} FenceOpens(e: Env, m: Md, tag: Text)
    requires Quiet(m) && !e.color && TagText(m, tag)
    ensures var n := Feed(e, m, TICKS + tag + NEWLINE);
            && InFence(n) && n.out == m.out + Tag(tag) + NEWLINE && n.marks == m.marks
            && n.style == m.style.(fence := true) && n.tex == m.tex && n.head == m.head.(sol := true)
            && n.side == m.side.(lang := Tag(tag))
  {
    hide Sane, Feed, Consume, InFence, InCommand, Tag;
    var q := m.(marks := m.marks.(ticks := 3));
    SaneTicks(m, 3);
    ThreeTicks(e, m);
    var line := tag + NEWLINE;
    StillReadingTag(m, q);
    ByteAfterTicks(e, q, line[0]);
    var o := Opened(q);
    OpenedIsSane(q);
    SameFirstByte(e, q, o, line);
    TagRead(e, o, tag);
    FeedJoins(e, o, tag, NEWLINE);
    var r := Feed(e, o, tag);
    StillReadingTag(o, r);
    OneByte(e, r, '\n');
    TagLineEnds(e, r);
    FeedJoins(e, m, TICKS, line);
    assert TICKS + tag + NEWLINE == TICKS + line;
  }

  lemma {:induction false} OneByte(e: Env, m: Md, c: Byte)
    requires Sane(m)
    ensures Feed(e, m, [c]) == Consume(e, m, c)
  {
    hide Sane, Consume;
    NothingFed(e, m);
    assert [c][..0] == [];
  }

  /** A newline between marks is a newline. */
  lemma {:induction false} QuietNewline(e: Env, m: Md)
    requires Quiet(m) && !e.color
    ensures var t := AfterCode(e, m, '\n');
            && t.Done? && t.m.out == m.out + NEWLINE && t.m.marks == m.marks && t.m.tex == m.tex
            && t.m.style == m.style.(header := false) && t.m.head == m.head.(sol := true)
            && t.m.side == m.side.(link := if m.side.link == 2 then 0 else m.side.link)
  {
    hide Sane, ResolveStars, ResolveTildes, Ansi, FlushHashes;
    assert FlushHashes(m) == m && ResolveTildes(e, m) == m;
    assert AfterDash(e, m, '\n') == LastPart(e, LinkPart(e, m, '\n').m, '\n');
    assert AfterDollar(e, m, '\n') == AfterDash(e, m, '\n');
    assert AfterCode(e, m, '\n') == AfterDollar(e, m, '\n');
  }

  /** A newline after three ticks inside a fence ends it. */
  lemma {:induction false} NewlineCloses(e: Env, m: Md)
    requires InFence(m) && m.marks.ticks >= 3 && !e.color && !m.style.code && m.marks.dollars == 0
    requires m.head.dashes == 0 && !m.head.gt && m.head.digits == [] && !m.head.dot
    ensures var n := Consume(e, m, '\n');
            && Quiet(n) && n.out == m.out + NEWLINE && n.marks == m.marks.(ticks := 0) && n.tex == m.tex
            && n.style == m.style.(fence := false, header := false) && n.head == m.head.(sol := true)
            && n.side == m.side.(link := if m.side.link == 2 then 0 else m.side.link)
  {
    hide Sane, Examine, ResolveTicks, AfterCode, FencePart;
    FenceReaches(e, m, '\n');
    FencePasses(m, '\n');
    ClosedIsQuiet(e, m);
    QuietNewline(e, ResolveTicks(e, m));
  }

  lemma {:induction false} ClosedIsQuiet(e: Env, m: Md)
    requires InFence(m) && m.marks.ticks >= 3 && !e.color && !m.style.code && m.marks.dollars == 0
    requires m.head.dashes == 0 && !m.head.gt && m.head.digits == [] && !m.head.dot
    ensures var n := ResolveTicks(e, m);
            Quiet(n) && n == m.(marks := m.marks.(ticks := 0), style := m.style.(fence := false))
  {
    hide ResolveTicks;
    FenceNotCommand(m);
  }

  /** From a quiet state, a whole fenced block with any tag and any body free of closing runs shows, without
      colour, exactly the tag (its first 30 bytes), the body, and one newline after each. */
  lemma {:induction false} WholeFence(e: Env, m: Md, tag: Text, body: Text)
    requires Quiet(m) && !e.color && TagText(m, tag) && NoClose(0, body) && Trail(body) == 0
    ensures var n := Feed(e, m, TICKS + tag + NEWLINE + body + TICKS + NEWLINE);
            && Quiet(n) && n.out == m.out + Tag(tag) + NEWLINE + body + NEWLINE
            && n.style == m.style.(header := false) && n.head.sol
  {
    hide Sane, Feed, Consume, InFence, InCommand, Tag, NoClose, Trail, Shown;
    var line := TICKS + tag + NEWLINE;
    FenceOpens(e, m, tag);
    var a := Feed(e, m, line);
    var inner := body + TICKS;
    TicksDoNotClose(body);
    FencedIsVerbatim(e, a, inner);
    var b := Feed(e, a, inner);
    TicksShown(a, b, body);
    NewlineCloses(e, b);
    OneByte(e, b, '\n');
    FeedJoins(e, m, line, inner);
    FeedJoins(e, m, line + inner, NEWLINE);
    assert TICKS + tag + NEWLINE + body + TICKS + NEWLINE == line + inner + NEWLINE;
  }

  lemma {:induction false} TrailOfThree(body: Text)
    requires Trail(body) == 0
    ensures Trail(Times('`', 0) + (body + TICKS)) == 3
  {
    hide Trail;
    TrailMore(body, '`');
    TrailMore(body + "`", '`');
    TrailMore(body + "`" + "`", '`');
    assert Times('`', 0) + (body + TICKS) == body + "`" + "`" + "`";
  }

  lemma {:induction false} TicksDoNotClose(body: Text)
    requires NoClose(0, body) && Trail(body) == 0
    ensures NoClose(0, body + TICKS) && Trail(Times('`', 0) + (body + TICKS)) == 3
  {
    hide Trail;
    var s: Text := body + TICKS;
    TrailOfThree(body);
    forall j | 0 <= j < |s| && s[j] != '`' ensures Trail(Times('`', 0) + s[..j]) < 3 {
      assert j < |body| && s[..j] == body[..j];
    }
  }

  lemma {:induction false} TicksShown(a: Md, b: Md, body: Text)
    requires a.marks.ticks == 0 && b.marks.ticks == 3 && Shown(b) == Shown(a) + (body + TICKS)
    ensures b.out == a.out + body
  {
    assert Times('`', 0) == [] && Times('`', 3) == TICKS;
    assert Shown(a) == a.out;
    var x, y := b.out + TICKS, (a.out + body) + TICKS;
    assert a.out + (body + TICKS) == y;
    assert x[..|x| - 3] == b.out && y[..|y| - 3] == a.out + body;
  }
}
