/** Links, math and backslash escapes in a text, and what the end of a block shows. */
module MarkdownInline {
  import opened Options
  import opened CText
  import opened Markdown
  import opened MarkdownRun
  import opened MarkdownFence
  import opened MarkdownText
  import opened MarkdownSpans
  import opened MarkdownLatex
  import opened MarkdownLines
  import Utf8

  // ----- links

  function WithLink(m: Md, link: nat): Md {
    m.(side := m.side.(link := link))
  }

  lemma {:induction false} WithLinkIs(m: Md, link: nat)
    requires Quiet(m) && link <= 3
    ensures var n := WithLink(m, link);
            Quiet(n) && Sane(n) && Calm(n) && n.out == m.out && n.style == m.style && n.head == m.head
            && n.side.link == link
  {
  }

  lemma {:induction false} LinkTurn(e: Env, m: Md, c: Byte, link: nat)
    requires Quiet(m) && !e.color && link <= 3 && m.side.link <= 3
    requires || (c == '[' && m.side.link == 0 && link == 1) || (c == ']' && m.side.link == 1 && link == 2)
             || (c == '(' && m.side.link == 2 && link == 3) || (c == ')' && m.side.link == 3 && link == 0)
    ensures Sane(m) && Feed(e, m, [c]) == WithLink(m, link)
  {
    WithLinkIs(m, m.side.link);
    assert WithLink(m, m.side.link) == m;
    assert m.head.dashes == 0 && m.head.digits == [] && !m.head.gt && !m.style.code && !m.style.fence;
    hide Calm, Sane, Open, NoMarks, Quiet, LastPart;
    assert AfterDollar(e, m, c) == Done(WithLink(m, link));
    TakenAtDollar(e, m, c);
    OneByte(e, m, c);
  }

  /** A text step: plain text from m leads to a quiet state with the same link. */
  lemma {:induction false} TextTurn(e: Env, m: Md, text: Text)
    requires Quiet(m) && !e.color && PlainIn(m, text) && m.side.link != 2
    ensures var n := Feed(e, m, text);
            && Sane(m) && Quiet(n) && n.out == m.out + text && n.style == m.style.(header := n.style.header)
            && n.head.sol == SolAfter(m.head.sol, text) && n.side.link == m.side.link
  {
    hide *;
    QuietIs(m);
    PlainIsVerbatim(e, m, text);
    SameLink(m.side.link);
  }

  lemma {:induction false} SameLink(link: nat)
    ensures link != 2 ==> LinkAfter(link) == link
    ensures LinkAfter(2) == 0
  {
  }

  const OPEN_LINK: Text := "["
  const CLOSE_LINK: Text := "]"

  /** A link in brackets before anything: the brackets go. */
  lemma {:induction false} LinkText(e: Env, m: Md, a: Text)
    requires Quiet(m) && !e.color && m.side.link == 0 && PlainIn(m, a)
    ensures var n := Feed(e, m, OPEN_LINK + a + CLOSE_LINK);
            && Sane(m) && Quiet(n) && n.out == m.out + a && n.style == m.style.(header := n.style.header)
            && n.head.sol == SolAfter(m.head.sol, a) && n.side.link == 2
  {
    assert OPEN_LINK == ['['] && CLOSE_LINK == [']'];
    SamePlain(m, WithLink(m, 1), a);
    hide *;
    QuietIs(m);
    LinkTurn(e, m, '[', 1);
    var k := WithLink(m, 1);
    WithLinkIs(m, 1);
    TextTurn(e, k, a);
    var l := Feed(e, k, a);
    LinkTurn(e, l, ']', 2);
    WithLinkIs(l, 2);
    FeedJoins(e, m, OPEN_LINK, a);
    FeedJoins(e, m, OPEN_LINK + a, CLOSE_LINK);
  }

  lemma {:induction false} SamePlain(m: Md, n: Md, text: Text)
    requires PlainIn(m, text) && n.style.math == m.style.math && n.head.sol == m.head.sol
    ensures PlainIn(n, text)
  {
  }

  /** A whole link: its text and its address are shown without the brackets. */
  lemma {:induction false} WholeLink(e: Env, m: Md, a: Text, url: Text, rest: Text)
    requires Quiet(m) && !e.color && m.side.link == 0 && PlainIn(m, a)
    requires var sol := SolAfter(m.head.sol, a);
             PlainText(m.style.math, sol, url) && PlainText(m.style.math, SolAfter(sol, url), rest)
    ensures var n := Feed(e, m, OPEN_LINK + a + CLOSE_LINK + "(" + url + ")" + rest);
            && Quiet(n) && n.out == m.out + a + url + rest && n.style == m.style.(header := n.style.header)
            && n.side.link == 0
  {
    hide *;
    LinkText(e, m, a);
    var first := OPEN_LINK + a + CLOSE_LINK;
    var k := Feed(e, m, first);
    QuietIs(k);
    LinkTurn(e, k, '(', 3);
    var l := WithLink(k, 3);
    WithLinkIs(k, 3);
    PlainAt(m, l, SolAfter(m.head.sol, a), url);
    TextTurn(e, l, url);
    var o := Feed(e, l, url);
    LinkTurn(e, o, ')', 0);
    var p := WithLink(o, 0);
    WithLinkIs(o, 0);
    PlainAt(m, p, SolAfter(SolAfter(m.head.sol, a), url), rest);
    TextTurn(e, p, rest);
    FeedJoins(e, m, first, "(");
    FeedJoins(e, m, first + "(", url);
    FeedJoins(e, m, first + "(" + url, ")");
    FeedJoins(e, m, first + "(" + url + ")", rest);
  }

  lemma {:induction false} PlainAt(m: Md, n: Md, sol: bool, text: Text)
    requires PlainText(m.style.math, sol, text) && n.style.math == m.style.math && n.head.sol == sol
    ensures PlainIn(n, text)
  {
  }

  /** Brackets without an address: the brackets go, and the link is over. */
  lemma {:induction false} LinkWithoutAddress(e: Env, m: Md, a: Text, rest: Text)
    requires Quiet(m) && !e.color && m.side.link == 0 && PlainIn(m, a)
    requires rest != [] && PlainText(m.style.math, SolAfter(m.head.sol, a), rest)
    ensures var n := Feed(e, m, OPEN_LINK + a + CLOSE_LINK + rest);
            && Quiet(n) && n.out == m.out + a + rest && n.style == m.style.(header := n.style.header)
            && n.side.link == 0
  {
    hide *;
    LinkText(e, m, a);
    var first := OPEN_LINK + a + CLOSE_LINK;
    var k := Feed(e, m, first);
    QuietIs(k);
    PlainAt(m, k, SolAfter(m.head.sol, a), rest);
    PlainIsVerbatim(e, k, rest);
    SameLink(2);
    FeedJoins(e, m, first, rest);
  }

  // ----- math between dollars

  function WithDollars(m: Md, k: nat): Md {
    m.(marks := m.marks.(dollars := k))
  }

  function MathFlipped(m: Md): Md {
    m.(style := m.style.(math := !m.style.math))
  }

  lemma {:induction false} WithDollarsIs(m: Md, k: nat)
    requires Quiet(m)
    ensures Sane(WithDollars(m, k)) && Open(WithDollars(m, k)) && NoMarks(WithDollars(m, k)) && WithDollars(m, 0) == m
    ensures Sane(m) && Quiet(MathFlipped(m)) && Sane(MathFlipped(m)) && Open(MathFlipped(m)) && NoMarks(MathFlipped(m))
  {
  }

  lemma {:induction false} DollarRead(e: Env, m: Md, k: nat)
    requires Quiet(m)
    ensures Sane(WithDollars(m, k)) && Consume(e, WithDollars(m, k), '$') == WithDollars(m, k + 1)
  {
    WithDollarsIs(m, k);
    OpenReachesCode(e, WithDollars(m, k), '$');
    NothingToResolve(e, WithDollars(m, k));
    hide Sane, Examine, AfterDollar, ResolveStars, ResolveTildes, FlushHashes, NoMarks, Quiet;
    assert AfterCode(e, WithDollars(m, k), '$') == Done(WithDollars(m, k + 1));
    ConsumedAtOnce(e, WithDollars(m, k), '$');
  }

  lemma {:induction false} DollarsRead(e: Env, m: Md, k: nat)
    requires Quiet(m)
    ensures Sane(m) && Feed(e, m, Run('$', k)) == WithDollars(m, k)
  {
    hide *;
    QuietIs(m);
    RunGrows('$', 0);
    if k == 0 {
      NothingFed(e, m);
      WithDollarsIs(m, 0);
    } else {
      DollarsRead(e, m, k - 1);
      DollarRead(e, m, k - 1);
      RunGrows('$', k - 1);
      FeedJoins(e, m, Run('$', k - 1), ['$']);
      OneByte(e, WithDollars(m, k - 1), '$');
    }
  }

  lemma {:induction false} DollarsThen(e: Env, m: Md, k: nat, c: Byte)
    requires Quiet(m) && k >= 1 && !e.color && c != '*' && c != '~' && c != '$' && (m.head.sol ==> c != '#')
    ensures AfterCode(e, WithDollars(m, k), c) == AfterCode(e, MathFlipped(m), c)
  {
    WithDollarsIs(m, k);
    NothingToResolve(e, WithDollars(m, k));
    NothingToResolve(e, MathFlipped(m));
    assert m.marks.dollars == 0 && m.marks.hashes == 0;
    hide Sane, AfterDollar, ResolveStars, ResolveTildes, FlushHashes, NoMarks, Quiet, Open;
    assert DollarPart(e, WithDollars(m, k), c) == On(MathFlipped(m));
  }

  /** Text after dollars, in or out of math: the dollars go, and math is switched. */
  lemma {:induction false} DollarsThenText(e: Env, m: Md, k: nat, text: Text)
    requires Quiet(m) && !e.color && k >= 1 && text != [] && PlainText(!m.style.math, m.head.sol, text)
    requires text[0] != '^' && text[0] != '_'
    ensures var n := Feed(e, m, Run('$', k) + text);
            && Quiet(n) && n.out == m.out + text && n.head.sol == SolAfter(m.head.sol, text)
            && n.style == m.style.(math := !m.style.math, header := n.style.header)
  {
    var d, n, c := WithDollars(m, k), MathFlipped(m), text[0];
    assert PlainIn(n, text) && n.out == m.out && n.style == m.style.(math := !m.style.math) && n.head == m.head;
    FirstByte(n, text);
    DollarsThen(e, m, k, c);
    WithDollarsIs(m, k);
    hide *;
    OpenReachesCode(e, d, c);
    OpenReachesCode(e, n, c);
    SameConsume(e, d, n, c);
    SameFirstByte(e, d, n, text);
    DollarsRead(e, m, k);
    FeedJoins(e, m, Run('$', k), text);
    PlainIsVerbatim(e, n, text);
  }

  lemma {:induction false} FirstByte(m: Md, text: Text)
    requires PlainIn(m, text) && text != []
    ensures text[0] != '`' && text[0] != '*' && text[0] != '~' && text[0] != '$' && (m.head.sol ==> text[0] != '#')
  {
    assert text[..0] == [];
    if text[0] != '\n' {
      InertIs(m.style.math, m.head.sol, text[0]);
    }
  }

  /** Text between dollars, one or more on either side, and text after it: the dollars go, and math is as it was. */
  lemma {:induction false} BetweenDollars(e: Env, m: Md, k: nat, inner: Text, j: nat, rest: Text)
    requires Quiet(m) && !e.color && k >= 1 && j >= 1 && inner != [] && rest != []
    requires PlainText(!m.style.math, m.head.sol, inner)
    requires PlainText(m.style.math, SolAfter(m.head.sol, inner), rest)
    requires inner[0] != '^' && inner[0] != '_' && rest[0] != '^' && rest[0] != '_'
    ensures Feed(e, m, Run('$', k) + inner).style.math == !m.style.math
    ensures var n := Feed(e, m, Run('$', k) + inner + Run('$', j) + rest);
            && Quiet(n) && n.out == m.out + inner + rest && n.style == m.style.(header := n.style.header)
  {
    hide *;
    QuietIs(m);
    DollarsThenText(e, m, k, inner);
    var n := Feed(e, m, Run('$', k) + inner);
    QuietIs(n);
    DollarsThenText(e, n, j, rest);
    FeedJoins(e, m, Run('$', k) + inner, Run('$', j) + rest);
    assert Run('$', k) + inner + Run('$', j) + rest == Run('$', k) + inner + (Run('$', j) + rest);
  }

  // ----- superscripts and subscripts

  /** What a raised or lowered byte is shown as. */
  function Shift(e: Env, up: bool, c: Byte): Text {
    match if up then e.sup(c) else e.sub(c)
    case Some(sym) => sym
    case None => [c]
  }

  function ShiftAll(e: Env, up: bool, t: Text): Text {
    if t == [] then [] else ShiftAll(e, up, t[..|t| - 1]) + Shift(e, up, t[|t| - 1])
  }

  function Mark(up: bool): Byte {
    if up then '^' else '_'
  }

  function Shifting(m: Md, up: bool, brace: bool): Md {
    m.(side := m.side.(supSub := if up then 1 else 2, supBrace := brace))
  }

  lemma {:induction false} ShiftingIsSane(m: Md, up: bool, brace: bool)
    requires Quiet(m)
    ensures Sane(m) && Sane(Shifting(m, up, brace)) && !InCommand(m) && m.side.supSub == 0 && !m.style.code
    ensures !m.style.fence && !m.side.langCol
  {
  }

  lemma {:induction false} MarkShifts(e: Env, m: Md, up: bool)
    requires Quiet(m) && m.style.math && !m.side.supBrace
    ensures Sane(m) && Feed(e, m, [Mark(up)]) == Shifting(m, up, false)
  {
    ShiftingIsSane(m, up, false);
    hide Sane, AfterLang, LangPart, Quiet;
    assert AfterLatex(e, m, Mark(up)) == Done(Shifting(m, up, false));
    assert AfterBrace(e, m, Mark(up)) == AfterLatex(e, m, Mark(up));
    ConsumedAtOnce(e, m, Mark(up));
    OneByte(e, m, Mark(up));
  }

  lemma {:induction false} ShiftTaken(e: Env, m: Md, c: Byte)
    requires Sane(m) && m.side.supSub > 0
    ensures SupPart(e, m, c).Done? && Consume(e, m, c) == SupPart(e, m, c).m
  {
    assert !InCommand(m);
    hide AfterLang, LangPart, InBounds, Shifted;
    assert AfterLatex(e, m, c) == SupPart(e, m, c);
    assert AfterBrace(e, m, c) == AfterLatex(e, m, c);
  }

  lemma {:induction false} ShiftedIs(e: Env, m: Md, up: bool, brace: bool, c: Byte)
    ensures Shifted(e, Shifting(m, up, brace), c) == Shifting(m.(out := m.out + Shift(e, up, c)), up, brace)
  {
  }

  /** One byte after the mark is raised or lowered, whatever it is but an opening brace. */
  lemma {:induction false} OneShifted(e: Env, m: Md, up: bool, c: Byte)
    requires Quiet(m) && m.style.math && !m.side.supBrace && c != '{'
    ensures Sane(m) && Feed(e, m, [Mark(up), c]) == m.(out := m.out + Shift(e, up, c))
    ensures Quiet(m.(out := m.out + Shift(e, up, c)))
  {
    var k := Shifting(m, up, false);
    ShiftingIsSane(m, up, false);
    ShiftTaken(e, k, c);
    ShiftedIs(e, m, up, false, c);
    MarkShifts(e, m, up);
    assert SupPart(e, k, c).m == m.(out := m.out + Shift(e, up, c));
    assert [Mark(up), c] == [Mark(up)] + [c];
    hide *;
    OneByte(e, k, c);
    FeedJoins(e, m, [Mark(up)], [c]);
  }

  lemma {:induction false} ShiftAllGrows(e: Env, m: Md, up: bool, t: Text)
    ensures m.(out := m.out + ShiftAll(e, up, [])) == m
    ensures t != [] ==> var s := t[..|t| - 1];
                        var n := m.(out := m.out + ShiftAll(e, up, s));
                        m.(out := m.out + ShiftAll(e, up, t)) == n.(out := n.out + Shift(e, up, t[|t| - 1]))
  {
    hide Shift;
    if t != [] {
      var s, c := t[..|t| - 1], t[|t| - 1];
      assert m.out + (ShiftAll(e, up, s) + Shift(e, up, c)) == m.out + ShiftAll(e, up, s) + Shift(e, up, c);
    }
  }

  lemma {:induction false} BracedShift(e: Env, m: Md, up: bool, t: Text)
    requires Quiet(m) && '}' !in t
    ensures var k := Shifting(m, up, true);
            Sane(k) && Feed(e, k, t) == Shifting(m.(out := m.out + ShiftAll(e, up, t)), up, true)
    ensures Quiet(m.(out := m.out + ShiftAll(e, up, t)))
    decreases |t|
  {
    hide *;
    ShiftAllGrows(e, m, up, t);
    ShiftingIsSane(m, up, true);
    var k := Shifting(m, up, true);
    if t == [] {
      NothingFed(e, k);
    } else {
      var i := |t| - 1;
      assert t[i] in t && t[..i + 1] == t;
      BracedShift(e, m, up, t[..i]);
      ShiftStep(e, m.(out := m.out + ShiftAll(e, up, t[..i])), up, t[i]);
      FeedMore(e, k, t, i);
    }
  }

  lemma {:induction false} ShiftStep(e: Env, m: Md, up: bool, c: Byte)
    requires Quiet(m) && c != '}'
    ensures var k := Shifting(m, up, true);
            Sane(k) && Consume(e, k, c) == Shifting(m.(out := m.out + Shift(e, up, c)), up, true)
    ensures Quiet(m.(out := m.out + Shift(e, up, c)))
  {
    ShiftingIsSane(m, up, true);
    ShiftTaken(e, Shifting(m, up, true), c);
    ShiftedIs(e, m, up, true, c);
  }

  lemma {:induction false} BraceTurns(e: Env, m: Md, up: bool)
    requires Quiet(m) && !m.side.supBrace
    ensures Sane(Shifting(m, up, false)) && Consume(e, Shifting(m, up, false), '{') == Shifting(m, up, true)
    ensures Sane(Shifting(m, up, true)) && Consume(e, Shifting(m, up, true), '}') == m
  {
    ShiftingIsSane(m, up, false);
    ShiftingIsSane(m, up, true);
    ShiftTaken(e, Shifting(m, up, false), '{');
    ShiftTaken(e, Shifting(m, up, true), '}');
    assert SupPart(e, Shifting(m, up, true), '}').m == m;
  }

  /** All bytes in braces after the mark are raised or lowered. */
  lemma {:induction false} AllShifted(e: Env, m: Md, up: bool, t: Text)
    requires Quiet(m) && m.style.math && !m.side.supBrace && '}' !in t
    ensures Sane(m) && Feed(e, m, [Mark(up)] + "{" + t + "}") == m.(out := m.out + ShiftAll(e, up, t))
    ensures Quiet(m.(out := m.out + ShiftAll(e, up, t)))
  {
    var n := m.(out := m.out + ShiftAll(e, up, t));
    assert !n.side.supBrace;
    hide *;
    QuietIs(m);
    MarkShifts(e, m, up);
    BraceTurns(e, m, up);
    OneByte(e, Shifting(m, up, false), '{');
    BracedShift(e, m, up, t);
    BraceTurns(e, n, up);
    OneByte(e, Shifting(n, up, true), '}');
    FeedJoins(e, m, [Mark(up)], "{");
    FeedJoins(e, m, [Mark(up)] + "{", t);
    FeedJoins(e, m, [Mark(up)] + "{" + t, "}");
  }

  // ----- backslash escapes

  lemma {:induction false} EscapeTaken(e: Env, m: Md, c: Byte, n: Md)
    requires Quiet(m) && !IsAlpha(c) && EscapePart(e, m.(tex := m.tex.(inLatex := false, latex := [])), c) == Done(n)
    ensures Sane(m) && Feed(e, m, BACKSLASH + [c]) == n
  {
    ReadingIsSane(m, []);
    var k := Reading(m, []);
    assert k.(tex := k.tex.(inLatex := false)) == m.(tex := m.tex.(inLatex := false, latex := []));
    hide Sane, Quiet, AfterLatex, EscapePart, ResolveLatex;
    assert LatexPart(e, k, c) == Done(n);
    assert Examine(e, k, c) == Done(n);
    hide *;
    ConsumedAtOnce(e, k, c);
    OneByte(e, k, c);
    BackslashOpens(e, m);
    OneByte(e, m, '\\');
    BackslashIs();
    FeedJoins(e, m, BACKSLASH, [c]);
  }

  lemma {:induction false} BackslashIs()
    ensures BACKSLASH == ['\\']
  {
  }

  /** A backslash and a mark show the mark. */
  lemma {:induction false} EscapedMark(e: Env, m: Md, c: Byte)
    requires Quiet(m) && (c == '#' || c == '$' || c == '%' || c == '&' || c == '_' || c == '{' || c == '}')
    ensures Sane(m) && Feed(e, m, BACKSLASH + [c]) == Named(m, [c]) && Quiet(Named(m, [c]))
  {
    NamedIsQuiet(m, [c]);
    MarkIsEscaped(c);
    hide Escaped, Quiet;
    EscapeTaken(e, m, c, Named(m, [c]));
  }

  lemma {:induction false} MarkIsEscaped(c: Byte)
    requires c == '#' || c == '$' || c == '%' || c == '&' || c == '_' || c == '{' || c == '}'
    ensures Escaped(c) == Some([c])
  {
    var s := "#$%&_{}";
    assert s[0] == '#' && s[1] == '$' && s[2] == '%' && s[3] == '&' && s[4] == '_' && s[5] == '{' && s[6] == '}';
  }

  /** The spaces and the line break: a comma gives a thin space (U+2009), a semicolon, a colon or a space one
      space, an exclamation mark nothing, and a second backslash a newline. */
  lemma {:induction false} EscapedSpace(e: Env, m: Md, c: Byte, shown: Text)
    requires Quiet(m)
    requires || (c == ',' && shown == [0xE2 as char, 0x80 as char, 0x89 as char])
             || ((c == ';' || c == ':' || c == ' ') && shown == [' ']) || (c == '!' && shown == [])
             || (c == '\\' && shown == ['\n'])
    ensures Sane(m) && Feed(e, m, BACKSLASH + [c]) == Named(m, shown) && Quiet(Named(m, shown))
  {
    NamedIsQuiet(m, shown);
    SpaceIsEscaped(c, shown);
    hide Escaped, Quiet;
    EscapeTaken(e, m, c, Named(m, shown));
  }

  lemma {:induction false} SpaceIsEscaped(c: Byte, shown: Text)
    requires || (c == ',' && shown == [0xE2 as char, 0x80 as char, 0x89 as char])
             || ((c == ';' || c == ':' || c == ' ') && shown == [' ']) || (c == '!' && shown == [])
             || (c == '\\' && shown == ['\n'])
    ensures Escaped(c) == Some(shown)
  {
    var s := "#$%&_{}";
    assert c != s[0] && c != s[1] && c != s[2] && c != s[3] && c != s[4] && c != s[5] && c != s[6];
    assert c !in s;
  }

  /** Round and square brackets switch math on and off and show nothing. */
  lemma {:induction false} EscapedBracket(e: Env, m: Md, c: Byte)
    requires Quiet(m) && !e.color && (c == '(' || c == '[' || c == ')' || c == ']')
    ensures var n := Named(m, []).(style := m.style.(math := c == '(' || c == '['));
            Sane(m) && Feed(e, m, BACKSLASH + [c]) == n && Quiet(n)
  {
    var n := Named(m, []).(style := m.style.(math := c == '(' || c == '['));
    assert Quiet(n);
    assert m.out + [] == m.out;
    hide Quiet, Escaped;
    EscapeTaken(e, m, c, n);
  }

  /** What may follow a backslash to make something else of it. */
  const AFTER_BACKSLASH: Text := "#$%&_{}()[],;:! \\"

  lemma {:induction false} NotEscaped(c: Byte)
    requires c !in AFTER_BACKSLASH
    ensures Escaped(c) == None && c != '(' && c != ')' && c != '[' && c != ']'
  {
    var s, t := AFTER_BACKSLASH, "#$%&_{}";
    assert s[..7] == t && s[7] == '(' && s[8] == ')' && s[9] == '[' && s[10] == ']' && s[11] == ',' && s[12] == ';';
    assert s[13] == ':' && s[14] == '!' && s[15] == ' ' && s[16] == '\\';
    assert c !in t;
  }

  lemma {:induction false} BackslashThen(e: Env, m: Md, c: Byte)
    requires Quiet(m) && !IsAlpha(c) && c !in AFTER_BACKSLASH
    ensures Sane(Reading(m, [])) && Sane(Named(m, BACKSLASH))
    ensures Examine(e, Reading(m, []), c) == Examine(e, Named(m, BACKSLASH), c)
  {
    var k, n := Reading(m, []), Named(m, BACKSLASH);
    NotEscaped(c);
    ReadingIsSane(m, []);
    NamedIsQuiet(m, BACKSLASH);
    QuietIs(n);
    hide Sane, Quiet, AfterLatex, Escaped, ResolveLatex;
    assert EscapePart(e, k.(tex := k.tex.(inLatex := false)), c) == On(n);
    assert LatexPart(e, k, c) == On(n);
    assert Examine(e, k, c) == AfterLatex(e, n, c);
    assert !n.tex.inLatex && n.tex.brace == NoBrace;
    assert Examine(e, n, c) == AfterLatex(e, n, c);
  }

  /** A backslash before anything else is shown as it is, and so is what follows. */
  lemma {:induction false} BackslashIsText(e: Env, m: Md, text: Text)
    requires Quiet(m) && !e.color && PlainIn(m, text) && text != []
    requires !IsAlpha(text[0]) && text[0] !in AFTER_BACKSLASH
    ensures var n := Feed(e, m, BACKSLASH + text);
            && Sane(m) && Quiet(n) && n.out == m.out + BACKSLASH + text
            && n.style == m.style.(header := n.style.header)
  {
    var n := Named(m, BACKSLASH);
    assert n.out == m.out + BACKSLASH && n.style == m.style && n.head == m.head && PlainIn(n, text);
    hide *;
    NamedIsQuiet(m, BACKSLASH);
    BackslashThen(e, m, text[0]);
    SameConsume(e, Reading(m, []), n, text[0]);
    SameFirstByte(e, Reading(m, []), n, text);
    BackslashOpens(e, m);
    BackslashIs();
    OneByte(e, m, '\\');
    FeedJoins(e, m, BACKSLASH, text);
    PlainIsVerbatim(e, n, text);
  }

  // ----- the end of a block

  /** Pending marks of one kind are shown when the block ends. */
  lemma {:induction false} EndShowsMarks(e: Env, m: Md, n: nat)
    requires Quiet(m) && !e.color
    ensures Ended(e, WithStars(m, n)).out == m.out + Run('*', n)
    ensures Ended(e, WithTildes(m, n)).out == m.out + Run('~', n)
    ensures Ended(e, WithTicks(m, n)).out == m.out + Run('`', n)
    ensures Ended(e, WithHashes(m, n)).out == m.out + Run('#', n)
    ensures Ended(e, WithDollars(m, n)).out == m.out
  {
    RunGrows('*', n);
    RunGrows('~', n);
    RunGrows('`', n);
    RunGrows('#', n);
    RunGrows('*', 0);
    RunGrows('~', 0);
    RunGrows('`', 0);
    RunGrows('#', 0);
    NothingHeld(m);
    hide Held, Sane, Open, Times, Run;
    EndIs(e, WithStars(m, n));
    EndIs(e, WithTildes(m, n));
    EndIs(e, WithTicks(m, n));
    EndIs(e, WithHashes(m, n));
    EndIs(e, WithDollars(m, n));
  }

  lemma {:induction false} EndIs(e: Env, m: Md)
    requires !m.tex.inLatex && !e.color
    ensures Ended(e, m).out == m.out + (Counted(m.marks) + Held(m.head))
  {
    hide Counted, Held;
  }

  lemma {:induction false} NothingHeld(m: Md)
    requires Quiet(m)
    ensures Held(m.head) == [] && !m.tex.inLatex
  {
    assert Times('-', 0) == [];
  }

  lemma {:induction false} NothingCountedIn(m: Md)
    requires Quiet(m)
    ensures Counted(m.marks) == [] && !m.tex.inLatex
  {
    assert Times('*', 0) == Times('~', 0) == Times('`', 0) == Times('#', 0) == [];
  }

  /** What a line start held back is shown when the block ends: dashes, a number with its dot, a quote mark. */
  lemma {:induction false} EndShowsLineStart(e: Env, m: Md, n: nat, d: Text, dot: bool)
    requires LineStart(m) && !e.color && d != []
    ensures Ended(e, WithDashes(m, n)).out == m.out + Run('-', n)
    ensures Ended(e, WithDigits(m, d, dot)).out == m.out + d + (if dot then DOT else [])
    ensures Ended(e, WithGt(m)).out == m.out + GT
  {
    RunGrows('-', n);
    RunGrows('-', 0);
    NothingCountedIn(m);
    assert m.head.dashes == 0 && m.head.digits == [] && !m.head.gt;
    hide Counted, Sane, Open, Times, Run, Quiet;
    EndIs(e, WithDashes(m, n));
    EndIs(e, WithDigits(m, d, dot));
    EndIs(e, WithGt(m));
    assert m.out + (d + (if dot then DOT else [])) == m.out + d + (if dot then DOT else []);
  }

  /** A block starts at the start of a line, with every style off and nothing pending. */
  lemma {:induction false} BlockStarts(out: seq<Octet>)
    ensures var m := Begin(out);
            && LineStart(m) && m.out == out && m.style == Style(false, false, false, false, false, false, false)
            && m.side == Side(0, 0, false, [], false) && m.tex == Tex([], false, NoBrace, [], [], 0, 0, false)
  {
  }

  /** After the end of a block every style is off, and the next line starts. */
  lemma {:induction false} EndIsLineStart(e: Env, m: Md)
    requires Sane(m) && !m.side.langCol && (m.head.digits == [] ==> !m.head.dot)
    ensures LineStart(Ended(e, m)) && Ended(e, m).side.link == 0 && !Ended(e, m).side.supBrace
    ensures var s := Ended(e, m).style; !s.bold && !s.italic && !s.code && !s.fence && !s.header && !s.strike && !s.math
  {
    hide Ansi, Counted, Held, ResolveLatex, Sane;
    EndedIsSane(e, m);
  }
}
