/** Runs of the Markdown machine: its invariant, its second looks, chunks, and what a fence shows. */
module MarkdownRun {
  import opened CText
  import opened Markdown

  // ----- the invariant

  /** Every fixed buffer has room for what it holds and the terminator. */
  predicate InBounds(m: Md) {
    && |m.tex.latex| <= LATEX_MAX && |m.tex.ba1| <= ARG_MAX && |m.tex.ba2| <= ARG_MAX
    && |m.side.lang| <= LANG_MAX && |m.head.digits| <= DIGITS_MAX
  }

  /** A command is being read, or waits for or collects its arguments. */
  predicate InCommand(m: Md) {
    m.tex.inLatex || m.tex.brace != NoBrace
  }

  predicate NoMarks(m: Md) {
    m.marks.stars == 0 && m.marks.tildes == 0 && m.marks.hashes == 0
  }

  predicate BraceState(t: Tex) {
    t.brace != NoBrace ==>
      !t.inLatex && 1 <= t.which <= Argc(t.brace) && (!t.wait ==> t.depth >= 1)
  }

  predicate Sane(m: Md) {
    && InBounds(m) && BraceState(m.tex)
    && (InCommand(m) ==> m.marks.ticks == 0 && !m.style.fence && m.side.supSub == 0)
    && (m.style.fence ==> m.side.supSub == 0 && NoMarks(m))
    && (m.marks.ticks > 0 ==> NoMarks(m))
    && (m.side.langCol ==> m.style.fence && m.marks.ticks == 0)
    && m.side.link <= 3 && m.side.supSub <= 2
  }

  /** Nothing literal and no command is open: the state from the stars on. */
  predicate Open(m: Md) {
    !InCommand(m) && m.marks.ticks == 0 && !m.style.fence && !m.style.code && !m.side.langCol && m.side.supSub == 0
  }

  // ----- each part keeps it

  lemma {:induction false} BraceKeeps(e: Env, m: Md, c: Byte)
    requires Sane(m)
    ensures var t := BracePart(e, m, c); Sane(t.m) && !t.Again?
    ensures var t := BracePart(e, m, c);
            t.On? ==> t.m.tex.brace == NoBrace && t.m.marks == m.marks && t.m.style == m.style && t.m.side == m.side
                      && (m.tex.brace != NoBrace ==> !t.m.tex.inLatex)
  {
    hide CommandText;
    if m.tex.brace != NoBrace && !m.tex.wait {
      CollectKeeps(m.tex, c);
    }
  }

  lemma {:induction false} CollectKeeps(t: Tex, c: Byte)
    ensures var u := Collected(t, c);
            && u.(ba1 := t.ba1, ba2 := t.ba2) == t
            && (|t.ba1| <= ARG_MAX ==> |u.ba1| <= ARG_MAX) && (|t.ba2| <= ARG_MAX ==> |u.ba2| <= ARG_MAX)
  {
  }

  lemma {:induction false} LatexKeeps(e: Env, m: Md, c: Byte)
    requires Sane(m) && m.tex.brace == NoBrace
    ensures var t := LatexPart(e, m, c); Sane(t.m)
    ensures var t := LatexPart(e, m, c);
            && (t.On? ==> !InCommand(t.m) && t.m.marks == m.marks && t.m.side == m.side
                          && t.m.style.fence == m.style.fence)
            && (t.Again? ==> t.m.tex.brace != NoBrace && t.m.tex.wait && !IsAlpha(c))
  {
    hide ResolveLatex, EscapePart;
  }

  lemma {:induction false} SupKeeps(e: Env, m: Md, c: Byte)
    requires Sane(m) && !InCommand(m)
    ensures var t := SupPart(e, m, c); Sane(t.m) && !t.Again?
    ensures var t := SupPart(e, m, c); t.On? ==> t.m == m && m.side.supSub == 0
  {
    hide Shifted;
  }

  lemma {:induction false} LangKeeps(e: Env, m: Md, c: Byte)
    requires Sane(m) && !InCommand(m)
    ensures var t := LangPart(e, m, c); Sane(t.m) && !t.Again?
    ensures var t := LangPart(e, m, c); t.On? <==> !m.side.langCol
    ensures var t := LangPart(e, m, c); t.On? ==> t.m == m
  {
    hide Ansi;
  }

  lemma {:induction false} OneTickKeeps(e: Env, m: Md)
    requires Sane(m) && !InCommand(m) && !m.side.langCol && m.side.supSub == 0
    ensures Sane(OneTick(e, m))
  {
    hide ResolveStars, ResolveTildes, FlushHashes;
  }

  lemma {:induction false} TickKeeps(e: Env, m: Md, c: Byte)
    requires Sane(m) && !InCommand(m) && !m.side.langCol && m.side.supSub == 0
    requires m.style.fence ==> c == '`' || m.marks.ticks > 0
    ensures var t := TickPart(e, m, c); Sane(t.m)
    ensures var t := TickPart(e, m, c);
            && (t.On? ==> c != '`' && !InCommand(t.m) && t.m.marks.ticks == 0 && !t.m.style.fence && !t.m.side.langCol
                          && t.m.side.supSub == 0)
            && (t.Again? ==> c != '`' && m.marks.ticks > 0 && t.m.side.langCol && !InCommand(t.m))
  {
    hide ResolveTicks, OneTick;
    OneTickKeeps(e, m);
  }

  lemma {:induction false} StarKeeps(e: Env, m: Md, c: Byte)
    requires Sane(m) && Open(m)
    ensures var t := StarPart(e, m, c); Sane(t.m) && Open(t.m) && !t.Again?
  {
    hide ResolveStars, FlushHashes;
  }

  lemma {:induction false} TildeKeeps(e: Env, m: Md, c: Byte)
    requires Sane(m) && Open(m)
    ensures var t := TildePart(e, m, c); Sane(t.m) && Open(t.m) && !t.Again?
  {
    hide ResolveTildes;
  }

  lemma {:induction false} HashKeeps(e: Env, m: Md, c: Byte)
    requires Sane(m) && Open(m)
    ensures var t := HashPart(e, m, c); Sane(t.m) && Open(t.m) && !t.Again?
  {
    hide HeaderStyle, FlushHashes;
  }

  lemma {:induction false} DollarKeeps(e: Env, m: Md, c: Byte)
    requires Sane(m) && Open(m)
    ensures var t := DollarPart(e, m, c); Sane(t.m) && Open(t.m) && !t.Again?
  {
    hide Ansi, Restyle;
  }

  lemma {:induction false} BackslashKeeps(m: Md, c: Byte)
    requires Sane(m) && Open(m)
    ensures var t := BackslashPart(m, c); Sane(t.m) && !t.Again? && !t.m.style.fence
    ensures var t := BackslashPart(m, c); t.On? ==> t.m == m
  {
  }

  lemma {:induction false} DigitKeeps(m: Md, c: Byte)
    requires Sane(m) && Open(m)
    ensures var t := DigitPart(m, c); Sane(t.m) && Open(t.m) && !t.Again?
  {
    hide HeldDigits;
  }

  lemma {:induction false} DashKeeps(e: Env, m: Md, c: Byte)
    requires Sane(m) && Open(m)
    ensures var t := DashPart(e, m, c); Sane(t.m) && Open(t.m) && !t.Again?
  {
    hide Rule, Times;
  }

  lemma {:induction false} QuoteKeeps(e: Env, m: Md, c: Byte)
    requires Sane(m) && Open(m)
    ensures var t := QuotePart(e, m, c); Sane(t.m) && Open(t.m) && !t.Again?
  {
    hide Ansi, Restyle;
  }

  lemma {:induction false} LinkKeeps(e: Env, m: Md, c: Byte)
    requires Sane(m) && Open(m)
    ensures var t := LinkPart(e, m, c); Sane(t.m) && Open(t.m) && !t.Again?
  {
    hide Ansi;
  }

  lemma {:induction false} LastKeeps(e: Env, m: Md, c: Byte)
    requires Sane(m) && Open(m)
    ensures var t := LastPart(e, m, c); Sane(t.m) && t.Done? && !t.m.style.fence
  {
    hide Ansi;
  }

  // ----- and so does the loop body

  lemma {:induction false} AfterDashKeeps(e: Env, m: Md, c: Byte)
    requires Sane(m) && Open(m)
    ensures var t := AfterDash(e, m, c); Sane(t.m) && t.Done? && !t.m.style.fence
  {
    hide Sane, InCommand, QuotePart, LinkPart, LastPart;
    QuoteKeeps(e, m, c);
    var t := QuotePart(e, m, c);
    if t.On? {
      LinkKeeps(e, t.m, c);
      LastKeepsIf(e, LinkPart(e, t.m, c), c);
    }
  }

  lemma {:induction false} LastKeepsIf(e: Env, t: Turn, c: Byte)
    requires t.On? ==> Sane(t.m) && Open(t.m)
    ensures t.On? ==> var u := LastPart(e, t.m, c); Sane(u.m) && u.Done? && !u.m.style.fence
  {
    hide Sane, Open, LastPart;
    if t.On? {
      LastKeeps(e, t.m, c);
    }
  }

  lemma {:induction false} AfterDollarKeeps(e: Env, m: Md, c: Byte)
    requires Sane(m) && Open(m)
    ensures var t := AfterDollar(e, m, c); Sane(t.m) && t.Done? && !t.m.style.fence
  {
    hide Sane, InCommand, BackslashPart, DigitPart, DashPart, AfterDash;
    BackslashKeeps(m, c);
    if BackslashPart(m, c).On? {
      DigitKeeps(m, c);
      var u := DigitPart(m, c);
      if u.On? {
        DashKeeps(e, u.m, c);
        var v := DashPart(e, u.m, c);
        if v.On? {
          AfterDashKeeps(e, v.m, c);
        }
      }
    }
  }

  lemma {:induction false} AfterCodeKeeps(e: Env, m: Md, c: Byte)
    requires Sane(m) && Open(m)
    ensures var t := AfterCode(e, m, c); Sane(t.m) && t.Done? && !t.m.style.fence
  {
    hide Sane, InCommand, StarPart, TildePart, HashPart, DollarPart, AfterDollar;
    StarKeeps(e, m, c);
    var t := StarPart(e, m, c);
    if t.On? {
      TildeKeeps(e, t.m, c);
      var u := TildePart(e, t.m, c);
      if u.On? {
        HashKeeps(e, u.m, c);
        var v := HashPart(e, u.m, c);
        if v.On? {
          DollarKeeps(e, v.m, c);
          var w := DollarPart(e, v.m, c);
          if w.On? {
            AfterDollarKeeps(e, w.m, c);
          }
        }
      }
    }
  }

  lemma {:induction false} LiteralKeeps(m: Md, c: Byte)
    requires Sane(m)
    ensures Sane(Literal(m, c))
  {
  }

  lemma {:induction false} FenceKeeps(m: Md, c: Byte)
    requires Sane(m)
    ensures var t := FencePart(m, c); Sane(t.m) && !t.Again?
    ensures var t := FencePart(m, c); t.On? ==> t.m == m && (m.style.fence ==> c == '`' || m.marks.ticks > 0)
  {
    hide Sane, Literal;
    LiteralKeeps(m, c);
  }

  /** The inline-code test and all after it. */
  lemma {:induction false} CodeAndOnKeeps(e: Env, m: Md, c: Byte)
    requires Sane(m) && !InCommand(m) && m.marks.ticks == 0 && !m.style.fence && !m.side.langCol && m.side.supSub == 0
    ensures var v := CodePart(m, c); var t := if v.On? then AfterCode(e, v.m, c) else v; Sane(t.m) && t.Done?
  {
    hide Sane, InCommand, Literal, AfterCode;
    if m.style.code {
      LiteralKeeps(m, c);
    } else {
      AfterCodeKeeps(e, m, c);
    }
  }

  lemma {:induction false} AfterLangKeeps(e: Env, m: Md, c: Byte)
    requires Sane(m) && !InCommand(m) && !m.side.langCol && m.side.supSub == 0
    ensures var t := AfterLang(e, m, c); Sane(t.m) && !t.On?
    ensures var t := AfterLang(e, m, c);
            t.Again? ==> c != '`' && m.marks.ticks > 0 && t.m.side.langCol && !InCommand(t.m)
  {
    hide Sane, InCommand, FencePart, TickPart, CodePart, AfterCode;
    FenceKeeps(m, c);
    if FencePart(m, c).On? {
      TickKeeps(e, m, c);
      var u := TickPart(e, m, c);
      if u.On? {
        CodeAndOnKeeps(e, u.m, c);
      }
    }
  }

  lemma {:induction false} AfterLatexKeeps(e: Env, m: Md, c: Byte)
    requires Sane(m) && !InCommand(m)
    ensures var t := AfterLatex(e, m, c); Sane(t.m) && !t.On?
    ensures var t := AfterLatex(e, m, c);
            t.Again? ==> m.marks.ticks > 0 && !m.side.langCol && t.m.side.langCol && !InCommand(t.m)
  {
    hide Sane, InCommand, SupPart, LangPart, AfterLang;
    SupKeeps(e, m, c);
    if SupPart(e, m, c).On? {
      LangKeeps(e, m, c);
      if LangPart(e, m, c).On? {
        AfterLangKeeps(e, m, c);
      }
    }
  }

  /** Every look keeps the invariant; and when a byte must be looked at again, either a command waits for
      its arguments, or the language tag of a fence has just opened. */
  lemma {:induction false} ExamineKeeps(e: Env, m: Md, c: Byte)
    requires Sane(m)
    ensures var t := Examine(e, m, c); Sane(t.m) && !t.On?
    ensures var t := Examine(e, m, c);
            t.Again? ==> || (t.m.tex.brace != NoBrace && t.m.tex.wait)
                         || (m.marks.ticks > 0 && t.m.side.langCol && !InCommand(t.m))
  {
    hide Sane, InCommand, BracePart, LatexPart, AfterLatex;
    BraceKeeps(e, m, c);
    var t := BracePart(e, m, c);
    if t.On? {
      LatexKeeps(e, t.m, c);
      var u := LatexPart(e, t.m, c);
      if u.On? {
        AfterLatexKeeps(e, u.m, c);
      }
    }
  }

  /** A byte in the language tag is used up at once. */
  lemma {:induction false} TagTakesByte(e: Env, m: Md, c: Byte)
    requires Sane(m) && m.side.langCol && !InCommand(m)
    ensures Examine(e, m, c).Done?
  {
    hide AfterLang, Ansi;
    assert m.side.supSub == 0 && m.style.fence;
    assert AfterBrace(e, m, c) == AfterLatex(e, m, c);
  }

  /** No byte is looked at a third time. */
  lemma {:induction false} SecondLookIsLast(e: Env, m: Md, c: Byte)
    requires Sane(m) && Examine(e, m, c).Again?
    ensures Examine(e, Examine(e, m, c).m, c).Done?
  {
    hide Sane, Examine, InCommand;
    ExamineKeeps(e, m, c);
    var n := Examine(e, m, c).m;
    ExamineKeeps(e, n, c);
    if n.tex.brace != NoBrace && n.tex.wait {
      WaitingTakesByte(e, n, c);
    } else {
      TagTakesByte(e, n, c);
    }
  }

  lemma {:induction false} WaitingTakesByte(e: Env, m: Md, c: Byte)
    requires Sane(m) && m.tex.brace != NoBrace
    ensures Examine(e, m, c).Done?
  {
    hide Sane, InCommand, BracePart, LatexPart, AfterLatex;
    WaitingHasNoTicks(m);
    BraceKeeps(e, m, c);
    var t := BracePart(e, m, c);
    if t.On? {
      NotReading(e, t.m, c);
      AfterLatexKeeps(e, t.m, c);
    }
  }

  lemma {:induction false} WaitingHasNoTicks(m: Md)
    requires Sane(m) && m.tex.brace != NoBrace
    ensures m.marks.ticks == 0
  {
  }

  lemma {:induction false} NotReading(e: Env, m: Md, c: Byte)
    requires m.tex.brace == NoBrace && !m.tex.inLatex
    ensures LatexPart(e, m, c) == On(m) && !InCommand(m)
  {
  }

  // ----- a byte, and a text

  /** What a byte does to the state, second look included. */
  function Consume(e: Env, m: Md, c: Byte): (r: Md)
    requires Sane(m)
    ensures Sane(r)
  {
    ExamineKeeps(e, m, c);
    var t := Examine(e, m, c);
    if t.Again? then
      ExamineKeeps(e, t.m, c);
      Examine(e, t.m, c).m
    else t.m
  }

  function Feed(e: Env, m: Md, text: Text): (r: Md)
    requires Sane(m)
    ensures Sane(r)
  {
    if text == [] then m else Consume(e, Feed(e, m, text[..|text| - 1]), text[|text| - 1])
  }

  /** Streaming is chunk-independent: two feeds in a row are one feed of both texts. */
  lemma {:induction false} FeedJoins(e: Env, m: Md, a: Text, b: Text)
    requires Sane(m)
    ensures Feed(e, Feed(e, m, a), b) == Feed(e, m, a + b)
    decreases |b|
  {
    hide Sane, Consume;
    if b == [] {
      assert a + b == a;
    } else {
      var n := |b| - 1;
      FeedJoins(e, m, a, b[..n]);
      assert (a + b)[..|a| + n] == a + b[..n];
    }
  }

  lemma {:induction false} FeedMore(e: Env, m: Md, text: Text, p: nat)
    requires Sane(m) && p < |text|
    ensures Feed(e, m, text[..p + 1]) == Consume(e, Feed(e, m, text[..p]), text[p])
  {
    hide Sane, Consume;
    assert text[..p + 1][..p] == text[..p];
  }

  // ----- the machine

  class Renderer {
    const e: Env
    var md: Md
    /** How many looks have been taken at bytes. */
    ghost var looks: nat

    constructor (e: Env)
      ensures this.e == e && md == Begin([]) && looks == 0 && Sane(md)
    {
      this.e := e;
      md := Begin([]);
      looks := 0;
    }

    method BeginBlock()
      modifies this
      ensures md == Begin(old(md).out) && Sane(md) && looks == old(looks)
    {
      md := Begin(md.out);
    }

    /** One chunk. The pointer steps back where a byte has to be looked at again. */
    method FeedChunk(text: Text)
      requires Sane(md)
      modifies this
      ensures Sane(md) && md == Feed(e, old(md), text)
      ensures looks <= old(looks) + 2 * |text|
    {
      hide Sane, Consume, Examine, Feed;
      var p: int := 0;
      ghost var m, again := md, false;
      assert text[..0] == [] && text[..|text|] == text;
      NothingFed(e, m);
      while p < |text|
        invariant 0 <= p <= |text| && Sane(md)
        invariant !again ==> md == Feed(e, m, text[..p])
        invariant again ==> p < |text| && Examine(e, Feed(e, m, text[..p]), text[p]) == Again(md)
        invariant looks <= old(looks) + 2 * p + (if again then 1 else 0)
        decreases |text| - p, if again then 0 else 1
      {
        FeedMore(e, m, text, p);
        LooksConsume(e, Feed(e, m, text[..p]), text[p]);
        var t := Examine(e, md, text[p]);
        looks := looks + 1;
        md := t.m;
        again := t.Again?;
        if t.Again? {
          p := p - 1;
        }
        p := p + 1;
      }
    }

    method EndBlock()
      requires Sane(md)
      modifies this
      ensures md == Ended(e, old(md)) && looks == old(looks)
    {
      if md.tex.inLatex {
        md := ResolveLatex(e, md);
      }
      md := md.(tex := md.tex.(brace := NoBrace));
      md := Say(md, Counted(md.marks) + Held(md.head));
      md := md.(marks := Marks(0, 0, 0, 0, 0), head := Settled(md.head));
      md := md.(side := md.side.(link := 0, supSub := 0, supBrace := false));
      if Styled(md.style) {
        md := Ansi(e, md, "0");
      }
      md := md.(style := Style(false, false, false, false, false, false, false));
    }
  }

  lemma {:induction false} NothingFed(e: Env, m: Md)
    requires Sane(m)
    ensures Feed(e, m, []) == m
  {
  }

  /** A byte is consumed by one look or by two. */
  lemma {:induction false} LooksConsume(e: Env, m: Md, c: Byte)
    requires Sane(m)
    ensures var t := Examine(e, m, c);
            && Sane(t.m) && !t.On?
            && (t.Done? ==> t.m == Consume(e, m, c))
            && (t.Again? ==> Examine(e, t.m, c) == Done(Consume(e, m, c)) && Sane(Consume(e, m, c)))
  {
    hide Sane, Examine;
    ExamineKeeps(e, m, c);
    if Examine(e, m, c).Again? {
      SecondLookIsLast(e, m, c);
      var u := Examine(e, Examine(e, m, c).m, c);
      assert u == Done(u.m);
    }
  }

  /** The end of a block keeps the invariant exactly when it does not fall inside the language tag of a
      fence: the tag stays open there, and only md_begin_block closes it. */
  lemma {:induction false} EndedIsSane(e: Env, m: Md)
    requires Sane(m)
    ensures InBounds(Ended(e, m))
    ensures Sane(Ended(e, m)) <==> !m.side.langCol
  {
    hide Ansi, Counted, Held, ResolveLatex;
    var n := Ended(e, m);
    assert n.tex.brace == NoBrace && !n.tex.inLatex;
    assert InBounds(n);
  }
}
