/** Colour only adds: a coloured run writes what the same run writes without colour, with escape sequences
    in between, and goes through the same states. */
module MarkdownColour {
  import opened Options
  import opened CText
  import opened Markdown
  import opened MarkdownRun

  // ----- escape sequences in between

  /** The numbers of one escape sequence that selects how text is shown. */
  type Code = t: Text | forall k :: 0 <= k < |t| ==> '0' <= t[k] <= '9' || t[k] == ';' witness []

  datatype Ink = Shows(bytes: seq<Octet>) | Escape(code: Code)

  function VisibleOf(ink: Ink): seq<Octet> {
    if ink.Shows? then ink.bytes else []
  }

  function WrittenOf(ink: Ink): seq<Octet> {
    if ink.Shows? then ink.bytes else "\U{1B}[" + ink.code + "m"
  }

  function Visible(inks: seq<Ink>): seq<Octet> {
    if inks == [] then [] else Visible(inks[..|inks| - 1]) + VisibleOf(inks[|inks| - 1])
  }

  function Written(inks: seq<Ink>): seq<Octet> {
    if inks == [] then [] else Written(inks[..|inks| - 1]) + WrittenOf(inks[|inks| - 1])
  }

  /** Past base, out is plain with escape sequences in between. */
  ghost predicate Coloured(base: seq<Octet>, plain: seq<Octet>, out: seq<Octet>) {
    exists inks :: plain == base + Visible(inks) && out == base + Written(inks)
  }

  lemma {:induction false} ColouredNothing(base: seq<Octet>)
    ensures Coloured(base, base, base)
  {
    assert base == base + Visible([]) && base == base + Written([]);
  }

  lemma {:induction false} OneMoreInk(inks: seq<Ink>, ink: Ink)
    ensures Visible(inks + [ink]) == Visible(inks) + VisibleOf(ink)
    ensures Written(inks + [ink]) == Written(inks) + WrittenOf(ink)
  {
    assert (inks + [ink])[..|inks|] == inks;
  }

  lemma {:induction false} ColouredShows(base: seq<Octet>, plain: seq<Octet>, out: seq<Octet>, bytes: seq<Octet>)
    requires Coloured(base, plain, out)
    ensures Coloured(base, plain + bytes, out + bytes)
  {
    hide Visible, Written;
    var inks :| plain == base + Visible(inks) && out == base + Written(inks);
    OneMoreInk(inks, Shows(bytes));
    assert base + Visible(inks) + bytes == base + Visible(inks + [Shows(bytes)]);
    assert base + Written(inks) + bytes == base + Written(inks + [Shows(bytes)]);
  }

  lemma {:induction false} ColouredEscape(base: seq<Octet>, plain: seq<Octet>, out: seq<Octet>, code: Code)
    requires Coloured(base, plain, out)
    ensures Coloured(base, plain, out + ("\U{1B}[" + code + "m"))
  {
    hide Visible, Written;
    var inks :| plain == base + Visible(inks) && out == base + Written(inks);
    OneMoreInk(inks, Escape(code));
    assert plain == base + Visible(inks + [Escape(code)]);
    assert base + Written(inks) + ("\U{1B}[" + code + "m") == base + Written(inks + [Escape(code)]);
  }

  lemma {:induction false} ColouredJoins(base: seq<Octet>, plain: seq<Octet>, out: seq<Octet>,
                                         more: seq<Octet>, moreOut: seq<Octet>)
    requires Coloured(base, plain, out) && Coloured([], more, moreOut)
    ensures Coloured(base, plain + more, out + moreOut)
  {
    hide Visible, Written;
    var inks :| more == [] + Visible(inks) && moreOut == [] + Written(inks);
    assert more == Visible(inks) && moreOut == Written(inks);
    ColouredInks(base, plain, out, inks);
  }

  lemma {:induction false} ColouredInks(base: seq<Octet>, plain: seq<Octet>, out: seq<Octet>, inks: seq<Ink>)
    requires Coloured(base, plain, out)
    ensures Coloured(base, plain + Visible(inks), out + Written(inks))
    decreases |inks|
  {
    hide *;
    if inks == [] {
      NoInks();
      assert plain + [] == plain && out + [] == out;
    } else {
      var n := |inks| - 1;
      var front, ink := inks[..n], inks[n];
      ColouredInks(base, plain, out, front);
      OneMoreInk(front, ink);
      assert inks == front + [ink];
      ColouredInk(base, plain + Visible(front), out + Written(front), ink);
      assert plain + Visible(front) + VisibleOf(ink) == plain + (Visible(front) + VisibleOf(ink));
      assert out + Written(front) + WrittenOf(ink) == out + (Written(front) + WrittenOf(ink));
    }
  }

  lemma {:induction false} NoInks()
    ensures Visible([]) == [] && Written([]) == []
  {
  }

  lemma {:induction false} ColouredInk(base: seq<Octet>, plain: seq<Octet>, out: seq<Octet>, ink: Ink)
    requires Coloured(base, plain, out)
    ensures Coloured(base, plain + VisibleOf(ink), out + WrittenOf(ink))
  {
    hide Coloured;
    if ink.Shows? {
      ColouredShows(base, plain, out, ink.bytes);
    } else {
      ColouredEscape(base, plain, out, ink.code);
      assert plain + [] == plain;
    }
  }

  // ----- twins

  /** The same terminal without colour: what commands with arguments print loses its escape sequences too. */
  ghost predicate Plainly(e: Env, p: Env) {
    && p == e.(color := false, result := p.result)
    && forall x, y, z :: Coloured([], p.result(x, y, z), e.result(x, y, z))
  }

  /** n is m but for what it has written, and that is what m has written without the escape sequences. */
  ghost predicate Twin(base: seq<Octet>, m: Md, n: Md) {
    n == m.(out := n.out) && Coloured(base, n.out, m.out)
  }

  ghost predicate TwinTurn(base: seq<Octet>, t: Turn, u: Turn) {
    Twin(base, t.m, u.m) && (t.Done? <==> u.Done?) && (t.On? <==> u.On?)
  }

  lemma {:induction false} SayTwin(base: seq<Octet>, m: Md, n: Md, bytes: seq<Octet>)
    requires Twin(base, m, n)
    ensures Twin(base, Say(m, bytes), Say(n, bytes))
  {
    hide Coloured;
    ColouredShows(base, n.out, m.out, bytes);
  }

  lemma {:induction false} AnsiTwin(e: Env, p: Env, base: seq<Octet>, m: Md, n: Md, code: Code)
    requires Plainly(e, p) && Twin(base, m, n)
    ensures Twin(base, Ansi(e, m, code), Ansi(p, n, code))
  {
    hide Coloured;
    if e.color {
      ColouredEscape(base, n.out, m.out, code);
      assert "\U{1B}[" + code + "m" == "\U{1B}[" + (code + "m");
    }
  }

  // ----- what resolves the counts

  lemma {:induction false} RestyleTwin(e: Env, p: Env, base: seq<Octet>, m: Md, n: Md)
    requires Plainly(e, p) && Twin(base, m, n)
    ensures Twin(base, Restyle(e, m), Restyle(p, n))
  {
    hide Plainly, Ansi, Coloured;
    var k, l := if m.style.bold then Ansi(e, m, "1") else m, if n.style.bold then Ansi(p, n, "1") else n;
    AnsiTwin(e, p, base, m, n, "1");
    assert Twin(base, k, l);
    AnsiTwin(e, p, base, k, l, "3");
  }

  lemma {:induction false} HeaderTwin(e: Env, p: Env, base: seq<Octet>, m: Md, n: Md, h: nat)
    requires Plainly(e, p) && Twin(base, m, n)
    ensures Twin(base, HeaderStyle(e, m, h), HeaderStyle(p, n, h))
  {
    hide Plainly, Ansi, Coloured;
    AnsiTwin(e, p, base, m, n, "1;35");
    AnsiTwin(e, p, base, m, n, "1;36");
    AnsiTwin(e, p, base, m, n, "1;34");
  }

  lemma {:induction false} StarsTwin(e: Env, p: Env, base: seq<Octet>, m: Md, n: Md)
    requires Plainly(e, p) && Twin(base, m, n)
    ensures Twin(base, ResolveStars(e, m), ResolveStars(p, n))
  {
    hide Plainly, Ansi, Coloured, Say, Times;
    var k, l := m.(marks := m.marks.(stars := 0)), n.(marks := n.marks.(stars := 0));
    if m.marks.stars >= 3 {
      var off := m.style.bold && m.style.italic;
      var code: Code := if off then "22;23" else "1;3";
      AnsiTwin(e, p, base, k, l, code);
      SayTwin(base, Bolder(Ansi(e, k, code), !off, !off), Bolder(Ansi(p, l, code), !off, !off),
              Times('*', m.marks.stars - 3));
    } else if m.marks.stars == 2 {
      AnsiTwin(e, p, base, k, l, if m.style.bold then "22" else "1");
    } else if m.marks.stars == 1 {
      AnsiTwin(e, p, base, k, l, if m.style.italic then "23" else "3");
    }
  }

  lemma {:induction false} TildesTwin(e: Env, p: Env, base: seq<Octet>, m: Md, n: Md)
    requires Plainly(e, p) && Twin(base, m, n)
    ensures Twin(base, ResolveTildes(e, m), ResolveTildes(p, n))
  {
    hide Plainly, Ansi, Coloured, Say, Times;
    var k, l := m.(marks := m.marks.(tildes := 0)), n.(marks := n.marks.(tildes := 0));
    if m.marks.tildes >= 2 {
      var code: Code := if m.style.strike then "29" else "9";
      AnsiTwin(e, p, base, k, l, code);
      var style := m.style.(strike := !m.style.strike);
      SayTwin(base, Ansi(e, k, code).(style := style), Ansi(p, l, code).(style := style),
              Times('~', m.marks.tildes - 2));
    } else {
      SayTwin(base, k, l, Times('~', m.marks.tildes));
    }
  }

  lemma {:induction false} HashesTwin(base: seq<Octet>, m: Md, n: Md)
    requires Twin(base, m, n)
    ensures Twin(base, FlushHashes(m), FlushHashes(n))
  {
    hide Coloured, Say, Times;
    SayTwin(base, m, n, Times('#', m.marks.hashes));
  }

  lemma {:induction false} CodeOffTwin(e: Env, p: Env, base: seq<Octet>, m: Md, n: Md)
    requires Plainly(e, p) && Twin(base, m, n)
    ensures Twin(base, CodeOff(e, m), CodeOff(p, n))
  {
    hide Plainly, Ansi, Coloured, Restyle, HeaderStyle;
    AnsiTwin(e, p, base, m, n, "0");
    RestyleTwin(e, p, base, Ansi(e, m, "0"), Ansi(p, n, "0"));
    var h := if m.marks.hashes > 0 then m.marks.hashes else 1;
    HeaderTwin(e, p, base, Restyle(e, Ansi(e, m, "0")), Restyle(p, Ansi(p, n, "0")), h);
  }

  lemma {:induction false} TicksTwin(e: Env, p: Env, base: seq<Octet>, m: Md, n: Md)
    requires Plainly(e, p) && Twin(base, m, n)
    ensures Twin(base, ResolveTicks(e, m), ResolveTicks(p, n))
  {
    hide Plainly, Ansi, Coloured, Say, Times, CodeOff;
    var k, l := m.(marks := m.marks.(ticks := 0)), n.(marks := n.marks.(ticks := 0));
    if m.marks.ticks >= 3 {
      AnsiTwin(e, p, base, k, l, if m.style.fence then "0" else "32");
    } else if m.style.fence {
      SayTwin(base, k, l, Times('`', m.marks.ticks));
    } else if m.style.code {
      CodeOffTwin(e, p, base, k, l);
    } else {
      AnsiTwin(e, p, base, k, l, "36");
    }
  }

  lemma {:induction false} LatexTwin(e: Env, p: Env, base: seq<Octet>, m: Md, n: Md)
    requires Plainly(e, p) && Twin(base, m, n)
    ensures Twin(base, ResolveLatex(e, m), ResolveLatex(p, n))
  {
    hide Ansi, Coloured, Say, CommandText;
    SameEnv(e, p, m.tex.latex);
    SayTwin(base, m, n, "\\");
    SayTwin(base, m, n, CommandText(e, m.tex.latex));
  }

  lemma {:induction false} SameEnv(e: Env, p: Env, latex: Text)
    requires Plainly(e, p)
    ensures CommandText(e, latex) == CommandText(p, latex) && e.braceOf == p.braceOf && e.symbol == p.symbol
    ensures e.sup == p.sup && e.sub == p.sub && e.width == p.width && !p.color
  {
    hide Coloured;
  }

  // ----- the parts of the loop body

  lemma {:induction false} ClosedTwin(e: Env, p: Env, base: seq<Octet>, m: Md, n: Md)
    requires Plainly(e, p) && Twin(base, m, n)
    ensures Twin(base, BraceClosed(e, m), BraceClosed(p, n))
  {
    hide Coloured;
    if m.tex.which >= Argc(m.tex.brace) {
      var x, y, z := m.tex.latex, m.tex.ba1, m.tex.ba2;
      ColouredJoins(base, n.out, m.out, p.result(x, y, z), e.result(x, y, z));
    }
  }

  lemma {:induction false} BraceTwin(e: Env, p: Env, base: seq<Octet>, m: Md, n: Md, c: Byte)
    requires Plainly(e, p) && Twin(base, m, n)
    ensures TwinTurn(base, BracePart(e, m, c), BracePart(p, n, c))
  {
    hide Coloured, Say, CommandText, BraceClosed, Collected;
    SameEnv(e, p, m.tex.latex);
    SayTwin(base, m, n, CommandText(e, m.tex.latex));
    ClosedTwin(e, p, base, m, n);
  }

  lemma {:induction false} MathOnTwin(e: Env, p: Env, base: seq<Octet>, m: Md, n: Md)
    requires Plainly(e, p) && Twin(base, m, n)
    ensures Twin(base, MathOn(e, m), MathOn(p, n))
  {
    hide Plainly, Ansi, Coloured;
    AnsiTwin(e, p, base, m, n, "33");
  }

  lemma {:induction false} MathOffTwin(e: Env, p: Env, base: seq<Octet>, m: Md, n: Md)
    requires Plainly(e, p) && Twin(base, m, n)
    ensures Twin(base, MathOff(e, m), MathOff(p, n))
  {
    hide Plainly, Ansi, Coloured, Restyle;
    AnsiTwin(e, p, base, m, n, "0");
    RestyleTwin(e, p, base, Ansi(e, m, "0"), Ansi(p, n, "0"));
  }

  lemma {:induction false} EscapeTwin(e: Env, p: Env, base: seq<Octet>, m: Md, n: Md, c: Byte)
    requires Plainly(e, p) && Twin(base, m, n)
    ensures TwinTurn(base, EscapePart(e, m, c), EscapePart(p, n, c))
  {
    hide Plainly, Coloured, Say, MathOn, MathOff, Escaped;
    MathOnTwin(e, p, base, m, n);
    MathOffTwin(e, p, base, m, n);
    match Escaped(c) {
      case Some(bytes) => SayTwin(base, m, n, bytes);
      case None => SayTwin(base, m, n, "\\");
    }
  }

  lemma {:induction false} LatexPartTwin(e: Env, p: Env, base: seq<Octet>, m: Md, n: Md, c: Byte)
    requires Plainly(e, p) && Twin(base, m, n)
    ensures TwinTurn(base, LatexPart(e, m, c), LatexPart(p, n, c))
  {
    hide Plainly, Coloured, EscapePart, ResolveLatex;
    if m.tex.inLatex && !IsAlpha(c) {
      if m.tex.latex == [] {
        EscapeTwin(e, p, base, m.(tex := m.tex.(inLatex := false)), n.(tex := n.tex.(inLatex := false)), c);
      } else {
        LatexTwin(e, p, base, m, n);
      }
    }
  }

  lemma {:induction false} ShiftedTwin(e: Env, p: Env, base: seq<Octet>, m: Md, n: Md, c: Byte)
    requires Plainly(e, p) && Twin(base, m, n)
    ensures Twin(base, Shifted(e, m, c), Shifted(p, n, c))
  {
    hide Coloured, Say, CommandText;
    SameEnv(e, p, []);
    match if m.side.supSub == 1 then e.sup(c) else e.sub(c) {
      case Some(sym) => SayTwin(base, m, n, sym);
      case None => SayTwin(base, m, n, [c]);
    }
  }

  lemma {:induction false} SupTwin(e: Env, p: Env, base: seq<Octet>, m: Md, n: Md, c: Byte)
    requires Plainly(e, p) && Twin(base, m, n)
    ensures TwinTurn(base, SupPart(e, m, c), SupPart(p, n, c))
  {
    hide Plainly, Coloured, Shifted;
    ShiftedTwin(e, p, base, m, n, c);
  }

  lemma {:induction false} LangTwin(e: Env, p: Env, base: seq<Octet>, m: Md, n: Md, c: Byte)
    requires Plainly(e, p) && Twin(base, m, n)
    ensures TwinTurn(base, LangPart(e, m, c), LangPart(p, n, c))
  {
    hide Plainly, Coloured, Say, Ansi;
    if m.side.langCol && c == '\n' {
      if m.side.lang == [] {
        SayTwin(base, m, n, "\n");
      } else {
        AnsiTwin(e, p, base, m, n, "2;3");
        var a, b := Ansi(e, m, "2;3"), Ansi(p, n, "2;3");
        SayTwin(base, a, b, m.side.lang);
        AnsiTwin(e, p, base, Say(a, m.side.lang), Say(b, m.side.lang), "22;23");
        SayTwin(base, Ansi(e, Say(a, m.side.lang), "22;23"), Ansi(p, Say(b, m.side.lang), "22;23"), "\n");
      }
    }
  }

  lemma {:induction false} LiteralTwin(base: seq<Octet>, m: Md, n: Md, c: Byte)
    requires Twin(base, m, n)
    ensures Twin(base, Literal(m, c), Literal(n, c))
  {
    hide Coloured, Say;
    SayTwin(base, m, n, [c]);
  }

  lemma {:induction false} FenceTwin(base: seq<Octet>, m: Md, n: Md, c: Byte)
    requires Twin(base, m, n)
    ensures TwinTurn(base, FencePart(m, c), FencePart(n, c))
  {
    hide Coloured, Literal;
    LiteralTwin(base, m, n, c);
  }

  lemma {:induction false} OneTickTwin(e: Env, p: Env, base: seq<Octet>, m: Md, n: Md)
    requires Plainly(e, p) && Twin(base, m, n)
    ensures Twin(base, OneTick(e, m), OneTick(p, n))
  {
    hide Plainly, Coloured, ResolveStars, ResolveTildes, FlushHashes;
    StarsTwin(e, p, base, m, n);
    var a := if m.marks.stars > 0 && !m.style.fence then ResolveStars(e, m) else m;
    var b := if n.marks.stars > 0 && !n.style.fence then ResolveStars(p, n) else n;
    TildesTwin(e, p, base, a, b);
    HashesTwin(base, ResolveTildes(e, a), ResolveTildes(p, b));
  }

  lemma {:induction false} TickTwin(e: Env, p: Env, base: seq<Octet>, m: Md, n: Md, c: Byte)
    requires Plainly(e, p) && Twin(base, m, n)
    ensures TwinTurn(base, TickPart(e, m, c), TickPart(p, n, c))
  {
    hide Plainly, Coloured, OneTick, ResolveTicks, Literal;
    if c == '`' {
      OneTickTwin(e, p, base, m, n);
    } else if m.marks.ticks > 0 {
      TicksTwin(e, p, base, m, n);
      LiteralTwin(base, ResolveTicks(e, m), ResolveTicks(p, n), c);
    }
  }

  lemma {:induction false} CodeTwin(base: seq<Octet>, m: Md, n: Md, c: Byte)
    requires Twin(base, m, n)
    ensures TwinTurn(base, CodePart(m, c), CodePart(n, c))
  {
    hide Coloured, Literal;
    LiteralTwin(base, m, n, c);
  }

  lemma {:induction false} StarTwin(e: Env, p: Env, base: seq<Octet>, m: Md, n: Md, c: Byte)
    requires Plainly(e, p) && Twin(base, m, n)
    ensures TwinTurn(base, StarPart(e, m, c), StarPart(p, n, c))
  {
    hide Plainly, Coloured, ResolveStars, FlushHashes;
    HashesTwin(base, m, n);
    StarsTwin(e, p, base, m, n);
  }

  lemma {:induction false} TildeTwin(e: Env, p: Env, base: seq<Octet>, m: Md, n: Md, c: Byte)
    requires Plainly(e, p) && Twin(base, m, n)
    ensures TwinTurn(base, TildePart(e, m, c), TildePart(p, n, c))
  {
    hide Plainly, Coloured, ResolveTildes;
    TildesTwin(e, p, base, m, n);
  }

  lemma {:induction false} HashTwin(e: Env, p: Env, base: seq<Octet>, m: Md, n: Md, c: Byte)
    requires Plainly(e, p) && Twin(base, m, n)
    ensures TwinTurn(base, HashPart(e, m, c), HashPart(p, n, c))
  {
    hide Plainly, Coloured, HeaderStyle, FlushHashes;
    HeaderTwin(e, p, base, m, n, m.marks.hashes);
    HashesTwin(base, m, n);
  }

  lemma {:induction false} DollarTwin(e: Env, p: Env, base: seq<Octet>, m: Md, n: Md, c: Byte)
    requires Plainly(e, p) && Twin(base, m, n)
    ensures TwinTurn(base, DollarPart(e, m, c), DollarPart(p, n, c))
  {
    hide Plainly, Coloured, Ansi, Restyle;
    if m.style.math {
      AnsiTwin(e, p, base, m, n, "0");
      var k, l := Ansi(e, m, "0"), Ansi(p, n, "0");
      RestyleTwin(e, p, base, k, l);
      AnsiTwin(e, p, base, Restyle(e, k), Restyle(p, l), "1;35");
    } else {
      AnsiTwin(e, p, base, m, n, "33");
    }
  }

  lemma {:induction false} DigitTwin(base: seq<Octet>, m: Md, n: Md, c: Byte)
    requires Twin(base, m, n)
    ensures TwinTurn(base, DigitPart(m, c), DigitPart(n, c))
  {
    hide Coloured, Say, HeldDigits;
    SayTwin(base, m, n, "  " + m.head.digits + ". ");
    SayTwin(base, m, n, HeldDigits(m.head));
  }

  lemma {:induction false} RuleTwin(e: Env, p: Env, base: seq<Octet>, m: Md, n: Md)
    requires Plainly(e, p) && Twin(base, m, n)
    ensures Twin(base, Rule(e, m), Rule(p, n))
  {
    hide Plainly, Coloured, Say, Ansi, Repeat, CommandText;
    SameEnv(e, p, []);
    var bars := Repeat(Utf8.Encode(0x2500), if e.width < 72 then e.width else 72);
    AnsiTwin(e, p, base, m, n, "2");
    var k, l := Ansi(e, m, "2"), Ansi(p, n, "2");
    SayTwin(base, k, l, bars);
    AnsiTwin(e, p, base, Say(k, bars), Say(l, bars), "0");
    SayTwin(base, Ansi(e, Say(k, bars), "0"), Ansi(p, Say(l, bars), "0"), "\n");
  }

  lemma {:induction false} DashTwin(e: Env, p: Env, base: seq<Octet>, m: Md, n: Md, c: Byte)
    requires Plainly(e, p) && Twin(base, m, n)
    ensures TwinTurn(base, DashPart(e, m, c), DashPart(p, n, c))
  {
    hide Plainly, Coloured, Say, Rule, Times;
    var bullet := "  " + Utf8.Encode(0x2022) + " ";
    SayTwin(base, m, n, bullet);
    RuleTwin(e, p, base, m, n);
    SayTwin(base, m, n, Times('-', m.head.dashes));
  }

  lemma {:induction false} QuotedTwin(e: Env, p: Env, base: seq<Octet>, m: Md, n: Md)
    requires Plainly(e, p) && Twin(base, m, n)
    ensures Twin(base, Restyle(e, Ansi(e, Say(Ansi(e, m, "2;37"), Utf8.Encode(0x258E) + " "), "0")),
                       Restyle(p, Ansi(p, Say(Ansi(p, n, "2;37"), Utf8.Encode(0x258E) + " "), "0")))
  {
    hide Plainly, Coloured, Say, Ansi, Restyle;
    AnsiTwin(e, p, base, m, n, "2;37");
    var k, l, bar := Ansi(e, m, "2;37"), Ansi(p, n, "2;37"), Utf8.Encode(0x258E) + " ";
    SayTwin(base, k, l, bar);
    AnsiTwin(e, p, base, Say(k, bar), Say(l, bar), "0");
    RestyleTwin(e, p, base, Ansi(e, Say(k, bar), "0"), Ansi(p, Say(l, bar), "0"));
  }

  lemma {:induction false} QuoteTwin(e: Env, p: Env, base: seq<Octet>, m: Md, n: Md, c: Byte)
    requires Plainly(e, p) && Twin(base, m, n)
    ensures TwinTurn(base, QuotePart(e, m, c), QuotePart(p, n, c))
  {
    hide Plainly, Coloured, Say, Ansi, Restyle;
    SayTwin(base, m, n, ">");
    QuotedTwin(e, p, base, m, n);
    AnsiTwin(e, p, base, Restyle(e, Ansi(e, Say(Ansi(e, m, "2;37"), Utf8.Encode(0x258E) + " "), "0")),
             Restyle(p, Ansi(p, Say(Ansi(p, n, "2;37"), Utf8.Encode(0x258E) + " "), "0")), "33");
  }

  lemma {:induction false} LinkTwin(e: Env, p: Env, base: seq<Octet>, m: Md, n: Md, c: Byte)
    requires Plainly(e, p) && Twin(base, m, n)
    ensures TwinTurn(base, LinkPart(e, m, c), LinkPart(p, n, c))
  {
    hide Plainly, Coloured, Ansi;
    AnsiTwin(e, p, base, m, n, "36;4");
    AnsiTwin(e, p, base, m, n, "39;24");
    AnsiTwin(e, p, base, m, n, "2");
    AnsiTwin(e, p, base, m, n, "22");
  }

  lemma {:induction false} LastTwin(e: Env, p: Env, base: seq<Octet>, m: Md, n: Md, c: Byte)
    requires Plainly(e, p) && Twin(base, m, n)
    ensures TwinTurn(base, LastPart(e, m, c), LastPart(p, n, c))
  {
    hide Plainly, Coloured, Say, Ansi;
    SayTwin(base, m, n, [c]);
    SayTwin(base, m, n, "\n");
    AnsiTwin(e, p, base, Say(m, "\n"), Say(n, "\n"), "0");
  }

  // ----- the loop body, and a run

  lemma {:induction false} AfterDashTwin(e: Env, p: Env, base: seq<Octet>, m: Md, n: Md, c: Byte)
    requires Plainly(e, p) && Twin(base, m, n)
    ensures TwinTurn(base, AfterDash(e, m, c), AfterDash(p, n, c))
  {
    hide Plainly, Twin, QuotePart, LinkPart, LastPart;
    QuoteTwin(e, p, base, m, n, c);
    var t, u := QuotePart(e, m, c), QuotePart(p, n, c);
    if t.On? {
      LinkTwin(e, p, base, t.m, u.m, c);
      LastTwin(e, p, base, LinkPart(e, t.m, c).m, LinkPart(p, u.m, c).m, c);
    }
  }

  lemma {:induction false} AfterDollarTwin(e: Env, p: Env, base: seq<Octet>, m: Md, n: Md, c: Byte)
    requires Plainly(e, p) && Twin(base, m, n)
    ensures TwinTurn(base, AfterDollar(e, m, c), AfterDollar(p, n, c))
  {
    hide Plainly, Coloured, DigitPart, DashPart, AfterDash;
    if BackslashPart(m, c).On? {
      DigitTwin(base, m, n, c);
      hide Twin;
      var t, u := DigitPart(m, c), DigitPart(n, c);
      if t.On? {
        DashTwin(e, p, base, t.m, u.m, c);
        AfterDashTwin(e, p, base, DashPart(e, t.m, c).m, DashPart(p, u.m, c).m, c);
      }
    }
  }

  lemma {:induction false} AfterCodeTwin(e: Env, p: Env, base: seq<Octet>, m: Md, n: Md, c: Byte)
    requires Plainly(e, p) && Twin(base, m, n)
    ensures TwinTurn(base, AfterCode(e, m, c), AfterCode(p, n, c))
  {
    hide Plainly, Twin, StarPart, TildePart, HashPart, DollarPart, AfterDollar;
    StarTwin(e, p, base, m, n, c);
    var t, u := StarPart(e, m, c), StarPart(p, n, c);
    if t.On? {
      TildeTwin(e, p, base, t.m, u.m, c);
      var v, w := TildePart(e, t.m, c), TildePart(p, u.m, c);
      if v.On? {
        HashTwin(e, p, base, v.m, w.m, c);
        var x, y := HashPart(e, v.m, c), HashPart(p, w.m, c);
        if x.On? {
          DollarTwin(e, p, base, x.m, y.m, c);
          AfterDollarTwin(e, p, base, DollarPart(e, x.m, c).m, DollarPart(p, y.m, c).m, c);
        }
      }
    }
  }

  lemma {:induction false} AfterLangTwin(e: Env, p: Env, base: seq<Octet>, m: Md, n: Md, c: Byte)
    requires Plainly(e, p) && Twin(base, m, n)
    ensures TwinTurn(base, AfterLang(e, m, c), AfterLang(p, n, c))
  {
    hide Plainly, Twin, FencePart, TickPart, CodePart, AfterCode;
    FenceTwin(base, m, n, c);
    var t, u := FencePart(m, c), FencePart(n, c);
    if t.On? {
      TickTwin(e, p, base, t.m, u.m, c);
      var v, w := TickPart(e, t.m, c), TickPart(p, u.m, c);
      if v.On? {
        CodeTwin(base, v.m, w.m, c);
        AfterCodeTwin(e, p, base, CodePart(v.m, c).m, CodePart(w.m, c).m, c);
      }
    }
  }

  lemma {:induction false} ExamineTwin(e: Env, p: Env, base: seq<Octet>, m: Md, n: Md, c: Byte)
    requires Plainly(e, p) && Twin(base, m, n)
    ensures TwinTurn(base, Examine(e, m, c), Examine(p, n, c))
  {
    hide Plainly, Twin, BracePart, LatexPart, SupPart, LangPart, AfterLang;
    BraceTwin(e, p, base, m, n, c);
    var t, u := BracePart(e, m, c), BracePart(p, n, c);
    if t.On? {
      LatexPartTwin(e, p, base, t.m, u.m, c);
      var v, w := LatexPart(e, t.m, c), LatexPart(p, u.m, c);
      if v.On? {
        SupTwin(e, p, base, v.m, w.m, c);
        var x, y := SupPart(e, v.m, c), SupPart(p, w.m, c);
        if x.On? {
          LangTwin(e, p, base, x.m, y.m, c);
          AfterLangTwin(e, p, base, LangPart(e, x.m, c).m, LangPart(p, y.m, c).m, c);
        }
      }
    }
  }


  lemma {:induction false} ConsumeTwin(e: Env, p: Env, base: seq<Octet>, m: Md, n: Md, c: Byte)
    requires Plainly(e, p) && Twin(base, m, n) && Sane(m) && Sane(n)
    ensures Twin(base, Consume(e, m, c), Consume(p, n, c))
  {
    hide Plainly, Twin, Sane, Examine;
    ExamineTwin(e, p, base, m, n, c);
    if Examine(e, m, c).Again? {
      ExamineTwin(e, p, base, Examine(e, m, c).m, Examine(p, n, c).m, c);
    }
  }

  lemma {:induction false} FeedTwin(e: Env, p: Env, base: seq<Octet>, m: Md, n: Md, text: Text)
    requires Plainly(e, p) && Twin(base, m, n) && Sane(m) && Sane(n)
    ensures Twin(base, Feed(e, m, text), Feed(p, n, text))
    decreases |text|
  {
    hide Plainly, Twin, Sane, Consume;
    if text != [] {
      var k := |text| - 1;
      FeedTwin(e, p, base, m, n, text[..k]);
      ConsumeTwin(e, p, base, Feed(e, m, text[..k]), Feed(p, n, text[..k]), text[k]);
    }
  }

  lemma {:induction false} EndedTwin(e: Env, p: Env, base: seq<Octet>, m: Md, n: Md)
    requires Plainly(e, p) && Twin(base, m, n)
    ensures Twin(base, Ended(e, m), Ended(p, n))
  {
    hide Plainly, Coloured, ResolveLatex, Say, Ansi, Counted, Held;
    LatexTwin(e, p, base, m, n);
    var a, b := if m.tex.inLatex then ResolveLatex(e, m) else m, if n.tex.inLatex then ResolveLatex(p, n) else n;
    var held := Counted(m.marks) + Held(m.head);
    SayTwin(base, a, b, held);
    AnsiTwin(e, p, base, Say(a, held), Say(b, held), "0");
  }

  /** From any state, with colour any text leads where it leads without, and writes the same bytes with escape
      sequences in between; and so does the end of the block. */
  lemma {:induction false} ColourOnlyAdds(e: Env, p: Env, m: Md, text: Text)
    requires Plainly(e, p) && Sane(m)
    ensures Feed(p, m, text) == Feed(e, m, text).(out := Feed(p, m, text).out)
    ensures Coloured(m.out, Feed(p, m, text).out, Feed(e, m, text).out)
    ensures Ended(p, Feed(p, m, text)) == Ended(e, Feed(e, m, text)).(out := Ended(p, Feed(p, m, text)).out)
    ensures Coloured(m.out, Ended(p, Feed(p, m, text)).out, Ended(e, Feed(e, m, text)).out)
  {
    hide Plainly, Coloured, Sane, Feed, Ended;
    ColouredNothing(m.out);
    FeedTwin(e, p, m.out, m, m, text);
    EndedTwin(e, p, m.out, Feed(e, m, text), Feed(p, m, text));
  }
}
