/** Inline code and LaTeX commands in a text. */
module MarkdownSpans {
  import opened Options
  import opened CText
  import opened Markdown
  import opened MarkdownRun
  import opened MarkdownFence
  import opened MarkdownText

  // ----- inline code

  function WithTicks(m: Md, t: nat): Md {
    m.(marks := m.marks.(ticks := t))
  }

  /** Outside fences and commands, with no marks but ticks pending. */
  predicate TicksOnly(m: Md) {
    Sane(m) && !InCommand(m) && !m.style.fence && !m.side.langCol && m.side.supSub == 0 && NoMarks(m)
  }

  lemma {:induction false} WithTicksKeeps(m: Md, t: nat)
    requires TicksOnly(m)
    ensures Sane(m) && TicksOnly(WithTicks(m, t))
  {
  }

  lemma {:induction false} QuietIsTicksOnly(m: Md)
    requires Quiet(m)
    ensures TicksOnly(m) && WithTicks(m, 0) == m && m.marks.ticks == 0 && !m.style.code && Sane(m)
  {
  }

  lemma {:induction false} TicksFed(e: Env, m: Md, t: nat)
    requires TicksOnly(m) && m.marks.ticks == 0
    ensures Feed(e, m, Run('`', t)) == WithTicks(m, t)
  {
    WithTicksKeeps(m, t);
    hide TicksOnly, Sane, InCommand, Consume;
    RunGrows('`', 0);
    if t == 0 {
      NothingFed(e, m);
    } else {
      TicksFed(e, m, t - 1);
      WithTicksKeeps(m, t - 1);
      RunGrows('`', t - 1);
      assert Run('`', t)[..t - 1] == Run('`', t - 1);
      TickFed(e, WithTicks(m, t - 1));
    }
  }

  lemma {:induction false} TickFed(e: Env, m: Md)
    requires TicksOnly(m)
    ensures Sane(m) && Consume(e, m, '`') == WithTicks(m, m.marks.ticks + 1)
  {
    hide Sane, InCommand, Consume;
    OuterTick(e, m);
  }

  lemma {:induction false} ReachesLang(e: Env, m: Md, c: Byte)
    requires TicksOnly(m) && (m.style.math && !m.style.code ==> c != '^' && c != '_')
    ensures Examine(e, m, c) == AfterLang(e, m, c)
  {
    hide AfterLang;
    assert AfterBrace(e, m, c) == AfterLatex(e, m, c);
  }

  /** Inline code, past its opening ticks. */
  predicate InCode(m: Md) {
    TicksOnly(m) && m.style.code
  }

  /** The terminal, in colour, has been told that code follows. */
  function Cued(e: Env, m: Md): Md {
    Ansi(e, m, "36")
  }

  function Coding(m: Md): Md {
    m.(style := m.style.(code := true))
  }

  lemma {:induction false} CuedIs(e: Env, m: Md)
    requires Quiet(m)
    ensures var o := Cued(e, m);
            Quiet(o) && InCode(Coding(o)) && o.style == m.style && o.head == m.head && (!e.color ==> o == m)
  {
    hide Ansi;
  }

  lemma {:induction false} CodeOpens(e: Env, m: Md, t: nat, c: Byte)
    requires Quiet(m) && 1 <= t <= 2 && c != '`' && (m.style.math ==> c != '^' && c != '_')
    ensures var k := WithTicks(m, t); Sane(k) && Consume(e, k, c) == Literal(Coding(Cued(e, m)), c)
  {
    var k := WithTicks(m, t);
    QuietIsTicksOnly(m);
    WithTicksKeeps(m, t);
    assert Sane(k);
    hide Sane, Open, InCommand, AfterCode, CodePart;
    assert ResolveTicks(e, k) == Coding(Cued(e, m));
    assert AfterLang(e, k, c) == Done(Literal(Coding(Cued(e, m)), c));
    hide *;
    ReachesLang(e, k, c);
    ConsumedAtOnce(e, k, c);
  }

  lemma {:induction false} CodeByte(e: Env, m: Md, c: Byte)
    requires InCode(m) && m.marks.ticks == 0 && c != '`'
    ensures var n := Consume(e, m, c);
            n == m.(out := m.out + [c], head := m.head.(sol := c == '\n')) && InCode(n)
  {
    hide AfterCode, InBounds;
    ReachesLang(e, m, c);
    assert AfterLang(e, m, c) == Done(Literal(m, c));
  }

  lemma {:induction false} CodeIsLiteral(e: Env, m: Md, code: Text)
    requires InCode(m) && m.marks.ticks == 0 && '`' !in code
    ensures var n := Feed(e, m, code);
            n == m.(out := m.out + code, head := m.head.(sol := SolAfter(m.head.sol, code))) && InCode(n)
    decreases |code|
  {
    hide *;
    InCodeIsSane(m);
    LastSol(m.head.sol, code);
    if code == [] {
      NothingFed(e, m);
      assert m.out + code == m.out;
    } else {
      var k := |code| - 1;
      CodeIsLiteral(e, m, code[..k]);
      FeedMore(e, m, code, k);
      assert code[k] in code;
      CodeByte(e, Feed(e, m, code[..k]), code[k]);
      assert code[..k + 1] == code == code[..k] + [code[k]];
      assert m.out + code[..k] + [code[k]] == m.out + code;
    }
  }

  lemma {:induction false} InCodeIsSane(m: Md)
    requires InCode(m)
    ensures Sane(m) && TicksOnly(m)
  {
  }

  /** The terminal, in colour, has been told that the code is over. */
  function Closed(e: Env, m: Md): Md {
    CodeOff(e, Coding(m)).(style := m.style)
  }

  lemma {:induction false} ClosedIs(e: Env, m: Md)
    requires Quiet(m)
    ensures var c := Closed(e, m);
            Quiet(c) && Sane(c) && c.style == m.style && c.head == m.head && (!e.color ==> c == m)
  {
    hide Ansi, Restyle;
    assert CodeOff(e, Coding(m)).marks == m.marks;
  }

  /** The byte after the closing ticks meets the state that the ticks leave behind. */
  lemma {:induction false} CodeCloses(e: Env, m: Md, u: nat, c: Byte)
    requires Quiet(m) && 1 <= u <= 2 && c != '`' && (m.style.math ==> c != '^' && c != '_')
    ensures var k, n := WithTicks(Coding(m), u), Closed(e, m);
            Sane(k) && Sane(n) && Consume(e, k, c) == Consume(e, n, c)
  {
    var k := WithTicks(Coding(m), u);
    var n := Closed(e, m);
    ClosedIs(e, m);
    QuietIs(n);
    assert TicksOnly(k) && k.style.code && k.style.math == n.style.math == m.style.math;
    ResolvedCode(e, m, u);
    hide Sane, Open, InCommand, AfterCode, ResolveTicks, Quiet, TicksOnly, Closed;
    assert TickPart(e, k, c) == On(n);
    assert AfterLang(e, k, c) == AfterCode(e, n, c);
    hide *;
    ReachesLang(e, k, c);
    OpenReachesCode(e, n, c);
    SameConsume(e, k, n, c);
  }

  lemma {:induction false} ResolvedCode(e: Env, m: Md, u: nat)
    requires Quiet(m) && 1 <= u <= 2
    ensures ResolveTicks(e, WithTicks(Coding(m), u)) == Closed(e, m)
    ensures !Closed(e, m).style.code && !Closed(e, m).style.fence && WithTicks(Coding(m), u).marks.ticks == u
  {
    hide Sane, InCommand, CodeOff;
    assert WithTicks(Coding(m), u).(marks := m.marks) == Coding(m);
  }

  /** A quiet state after this text, in and out of code. */
  function After(m: Md, text: Text): Md {
    m.(out := m.out + text, head := m.head.(sol := SolAfter(m.head.sol, text)))
  }

  lemma {:induction false} AfterIsQuiet(m: Md, text: Text)
    requires Quiet(m)
    ensures Quiet(After(m, text)) && InCode(Coding(After(m, text)))
  {
  }

  /** Text after code meets the state that the code leaves behind. */
  lemma {:induction false} CodePassed(e: Env, m: Md, t: nat, code: Text, u: nat, rest: Text)
    requires Quiet(m) && 1 <= t <= 2 && 1 <= u <= 2 && code != [] && '`' !in code
    requires m.style.math ==> code[0] != '^' && code[0] != '_'
    requires rest != [] && PlainText(m.style.math, SolAfter(m.head.sol, code), rest)
    ensures var n := Closed(e, After(Cued(e, m), code));
            && Sane(m) && Quiet(n) && Sane(n) && n.style == m.style && n.head.sol == SolAfter(m.head.sol, code)
            && PlainIn(n, rest) && Feed(e, m, Run('`', t) + code + Run('`', u) + rest) == Feed(e, n, rest)
  {
    hide *;
    QuietIsTicksOnly(m);
    CuedIs(e, m);
    var o := Cued(e, m);
    var a := After(o, code);
    AfterIs(o, code);
    AfterIsQuiet(o, code);
    ClosedIs(e, a);
    PlainAfter(m, Closed(e, a), code, rest);
    FirstOfPlain(Closed(e, a), rest);
    TicksFed(e, m, t);
    CodeFed(e, m, t, code);
    InCodeIsSane(Coding(a));
    CodingIs(a);
    TicksFed(e, Coding(a), u);
    WithTicksKeeps(Coding(a), u);
    CodeCloses(e, a, u, rest[0]);
    SameFirstByte(e, WithTicks(Coding(a), u), Closed(e, a), rest);
    FeedJoins(e, m, Run('`', t), code);
    FeedJoins(e, m, Run('`', t) + code, Run('`', u));
    FeedJoins(e, m, Run('`', t) + code + Run('`', u), rest);
  }

  lemma {:induction false} PlainAfter(m: Md, n: Md, code: Text, rest: Text)
    requires PlainText(m.style.math, SolAfter(m.head.sol, code), rest)
    requires n.style == m.style && n.head.sol == SolAfter(m.head.sol, code)
    ensures PlainIn(n, rest)
  {
  }

  lemma {:induction false} CodingIs(m: Md)
    requires Quiet(m)
    ensures Coding(m).marks.ticks == 0
  {
  }

  /** Code between ticks, one or two on either side, is shown byte for byte, whatever marks it holds. */
  lemma {:induction false} CodeIsVerbatim(e: Env, m: Md, t: nat, code: Text, u: nat, rest: Text)
    requires Quiet(m) && !e.color && 1 <= t <= 2 && 1 <= u <= 2 && code != [] && '`' !in code
    requires m.style.math ==> code[0] != '^' && code[0] != '_'
    requires rest != [] && PlainText(m.style.math, SolAfter(m.head.sol, code), rest)
    ensures var n := Feed(e, m, Run('`', t) + code + Run('`', u) + rest);
            && Quiet(n) && n.out == m.out + code + rest && n.style == m.style.(header := n.style.header)
            && n.head.sol == SolAfter(SolAfter(m.head.sol, code), rest)
  {
    hide *;
    CodePassed(e, m, t, code, u, rest);
    CuedIs(e, m);
    AfterIs(m, code);
    AfterIsQuiet(m, code);
    ClosedIs(e, After(m, code));
    PlainIsVerbatim(e, After(m, code), rest);
  }

  lemma {:induction false} AfterIs(m: Md, code: Text)
    ensures After(m, code).style == m.style && After(m, code).head.sol == SolAfter(m.head.sol, code)
    ensures After(m, code).out == m.out + code && After(m, code).marks == m.marks
  {
  }

  lemma {:induction false} FirstOfPlain(m: Md, text: Text)
    requires PlainIn(m, text) && text != []
    ensures text[0] != '`' && (m.style.math ==> text[0] != '^' && text[0] != '_')
  {
    assert text[..0] == [];
    if text[0] != '\n' {
      InertIs(m.style.math, m.head.sol, text[0]);
    }
  }

  lemma {:induction false} CodeFed(e: Env, m: Md, t: nat, code: Text)
    requires Quiet(m) && 1 <= t <= 2 && code != [] && '`' !in code
    requires m.style.math ==> code[0] != '^' && code[0] != '_'
    ensures var k := WithTicks(m, t); Sane(k) && Feed(e, k, code) == Coding(After(Cued(e, m), code))
  {
    hide *;
    var first, tail := code[..1], code[1..];
    assert code[0] in code && '`' !in tail;
    assert code == first + tail && first == [code[0]];
    CuedIs(e, m);
    CodeOpens(e, m, t, code[0]);
    LiteralFirst(Cued(e, m), code);
    CodeIsLiteral(e, Literal(Coding(Cued(e, m)), code[0]), tail);
    OneByte(e, WithTicks(m, t), code[0]);
    FeedJoins(e, WithTicks(m, t), first, tail);
  }

  lemma {:induction false} LiteralFirst(m: Md, code: Text)
    requires Quiet(m) && code != []
    ensures var n, tail := Literal(Coding(m), code[0]), code[1..];
            && InCode(n) && n.marks.ticks == 0
            && n.(out := n.out + tail, head := n.head.(sol := SolAfter(n.head.sol, tail))) == Coding(After(m, code))
  {
    assert m.out + [code[0]] + code[1..] == m.out + code;
  }
}
