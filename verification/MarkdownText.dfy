/** Text between marks, and what marks do to it. */
module MarkdownText {
  import opened CText
  import opened Markdown
  import opened MarkdownRun
  import opened MarkdownFence

  // ----- plain text

  const MARKS := "`*~$\\[]()\n"
  const LINE_MARKS := "#-0123456789>"

  /** A byte that is no mark: a few bytes are marks in math mode only, and a few at the start of a line only. */
  predicate Inert(math: bool, sol: bool, c: char) {
    c !in MARKS && (math ==> c != '^' && c != '_') && (sol ==> c !in LINE_MARKS)
  }

  /** Whether a line starts after this text, given whether one did before it. */
  function SolAfter(sol: bool, t: Text): bool {
    if t == [] then sol else t[|t| - 1] == '\n'
  }

  /** Lines free of marks. */
  predicate PlainText(math: bool, sol: bool, t: Text) {
    forall k :: 0 <= k < |t| ==> t[k] == '\n' || Inert(math, SolAfter(sol, t[..k]), t[k])
  }

  predicate PlainIn(m: Md, t: Text) {
    PlainText(m.style.math, m.head.sol, t)
  }

  /** A link in the middle of its syntax takes brackets only. */
  function LinkAfter(link: nat): nat {
    if link == 2 then 0 else link
  }

  lemma {:induction false} InertIs(math: bool, sol: bool, c: char)
    requires Inert(math, sol, c)
    ensures c != '`' && c != '*' && c != '~' && c != '$' && c != '\\' && c != '\n'
    ensures c != '[' && c != ']' && c != '(' && c != ')' && (math ==> c != '^' && c != '_')
    ensures sol ==> c != '#' && c != '-' && !('0' <= c <= '9') && c != '>'
  {
    assert MARKS[0] == '`' && MARKS[1] == '*' && MARKS[2] == '~' && MARKS[3] == '$' && MARKS[4] == '\\';
    assert MARKS[5] == '[' && MARKS[6] == ']' && MARKS[7] == '(' && MARKS[8] == ')' && MARKS[9] == '\n';
    if sol {
      LineMarks(c);
    }
  }

  lemma {:induction false} LineMarks(c: char)
    requires c !in LINE_MARKS
    ensures c != '#' && c != '-' && !('0' <= c <= '9') && c != '>'
  {
    var marks := LINE_MARKS;
    assert marks[0] == '#' && marks[1] == '-' && marks[12] == '>';
    assert marks[2] == '0' && marks[3] == '1' && marks[4] == '2' && marks[5] == '3' && marks[6] == '4';
    assert marks[7] == '5' && marks[8] == '6' && marks[9] == '7' && marks[10] == '8' && marks[11] == '9';
  }

  lemma {:induction false} QuietIs(m: Md)
    requires Quiet(m)
    ensures Sane(m) && Open(m) && NoMarks(m) && m.marks.ticks == 0 && !InCommand(m) && !m.style.fence
    ensures !m.side.langCol && m.side.supSub == 0
  {
  }

  /** From the start of the loop body to the stars nothing happens to a byte where nothing literal is open. */
  lemma {:induction false} OpenReachesCode(e: Env, m: Md, c: Byte)
    requires Open(m) && c != '`' && (m.style.math ==> c != '^' && c != '_')
    ensures Examine(e, m, c) == AfterCode(e, m, c)
  {
    hide AfterCode;
    assert AfterLang(e, m, c) == AfterCode(e, m, c);
    assert AfterLatex(e, m, c) == AfterLang(e, m, c);
    assert AfterBrace(e, m, c) == AfterLatex(e, m, c);
  }

  lemma {:induction false} QuietInert(e: Env, m: Md, c: Byte)
    requires Quiet(m) && Inert(m.style.math, m.head.sol, c)
    ensures AfterCode(e, m, c)
            == Done(m.(out := m.out + [c], head := m.head.(sol := false),
                         side := m.side.(link := LinkAfter(m.side.link))))
  {
    InertIs(m.style.math, m.head.sol, c);
    hide Inert, Sane, ResolveStars, ResolveTildes, Ansi, FlushHashes;
    assert FlushHashes(m) == m && ResolveTildes(e, m) == m;
    assert AfterDash(e, m, c) == LastPart(e, LinkPart(e, m, c).m, c);
    assert AfterDollar(e, m, c) == AfterDash(e, m, c);
    assert AfterCode(e, m, c) == AfterDollar(e, m, c);
  }

  /** Nothing but output, line start, header and link may differ. */
  predicate Onward(m: Md, n: Md) {
    && n.marks == m.marks && n.tex == m.tex
    && n.style == m.style.(header := n.style.header) && n.head == m.head.(sol := n.head.sol)
    && n.side == m.side.(link := LinkAfter(m.side.link))
  }

  lemma {:induction false} OnwardIsQuiet(m: Md, n: Md)
    requires Quiet(m) && Onward(m, n)
    ensures Quiet(n) && n.style == m.style.(header := n.style.header) && n.side.link == LinkAfter(m.side.link)
  {
  }

  lemma {:induction false} QuietStep(e: Env, m: Md, c: Byte)
    requires Quiet(m) && (!e.color || c != '\n') && (c == '\n' || Inert(m.style.math, m.head.sol, c))
    ensures var n := Consume(e, m, c);
            n.out == m.out + [c] && Quiet(n) && n.style == m.style.(header := n.style.header)
            && n.head.sol == (c == '\n') && n.side.link == LinkAfter(m.side.link)
            && n.style.header == (m.style.header && c != '\n')
  {
    QuietIs(m);
    if c == '\n' {
      NewlineOnward(e, m);
    } else {
      InertIs(m.style.math, m.head.sol, c);
      hide Quiet, Sane, AfterCode, Inert;
      QuietInert(e, m, c);
      assert Onward(m, AfterCode(e, m, c).m);
    }
    hide *;
    OpenReachesCode(e, m, c);
    ConsumedAtOnce(e, m, c);
    OnwardIsQuiet(m, Consume(e, m, c));
  }

  lemma {:induction false} NewlineOnward(e: Env, m: Md)
    requires Quiet(m) && !e.color
    ensures var t := AfterCode(e, m, '\n');
            t.Done? && t.m.out == m.out + ['\n'] && Onward(m, t.m) && t.m.head.sol && !t.m.style.header
  {
    hide Quiet, AfterCode;
    QuietNewline(e, m);
  }

  lemma {:induction false} ConsumedAtOnce(e: Env, m: Md, c: Byte)
    requires Sane(m) && Examine(e, m, c).Done?
    ensures Consume(e, m, c) == Examine(e, m, c).m
  {
    hide Sane, Examine;
  }

  /** Text free of marks is shown byte for byte, without colour however many lines it has. */
  lemma {:induction false} PlainIsVerbatim(e: Env, m: Md, text: Text)
    requires Quiet(m) && (!e.color || '\n' !in text) && PlainIn(m, text)
    ensures var n := Feed(e, m, text);
            n.out == m.out + text && Quiet(n) && n.style == m.style.(header := n.style.header)
            && n.head.sol == SolAfter(m.head.sol, text)
            && n.side.link == (if text == [] then m.side.link else LinkAfter(m.side.link))
            && n.style.header == (m.style.header && '\n' !in text)
    decreases |text|
  {
    hide *;
    QuietIs(m);
    LastSol(m.head.sol, text);
    if text == [] {
      NothingFed(e, m);
    } else {
      var k := |text| - 1;
      PlainPrefix(m, text);
      assert text[k] in text;
      PlainIsVerbatim(e, m, text[..k]);
      FeedMore(e, m, text, k);
      QuietStep(e, Feed(e, m, text[..k]), text[k]);
      assert text[..k + 1] == text == text[..k] + [text[k]];
      LinkIsDone(m.side.link);
      assert '\n' in text <==> '\n' in text[..k] || text[k] == '\n';
    }
  }

  lemma {:induction false} LinkIsDone(link: nat)
    ensures LinkAfter(LinkAfter(link)) == LinkAfter(link)
  {
  }

  lemma {:induction false} LastSol(sol: bool, t: Text)
    ensures SolAfter(sol, t) == if t == [] then sol else t[|t| - 1] == '\n'
  {
  }

  lemma {:induction false} PlainPrefix(m: Md, text: Text)
    requires PlainIn(m, text) && text != []
    ensures var k := |text| - 1;
            && PlainIn(m, text[..k])
            && (text[k] == '\n' || Inert(m.style.math, SolAfter(m.head.sol, text[..k]), text[k]))
  {
    hide Inert, SolAfter;
    var k := |text| - 1;
    forall j | 0 <= j < k ensures text[..k][..j] == text[..j] {
    }
  }

  // ----- stars, tildes and ticks

  /** What a run of s stars makes of bold and italic. */
  function Starred(b: bool, i: bool, s: nat): (bool, bool) {
    if s >= 3 then (!(b && i), !(b && i)) else if s == 2 then (!b, i) else if s == 1 then (b, !i) else (b, i)
  }

  lemma {:induction false} StarsSwitch(e: Env, m: Md)
    ensures var n := ResolveStars(e, m); var (b, i) := Starred(m.style.bold, m.style.italic, m.marks.stars);
            n.style == m.style.(bold := b, italic := i)
  {
    hide Ansi, Times;
  }

  /** The same run of stars a second time gives the style back, except three or more where only one of bold
      and italic was on: there both were switched on first, and both go off. */
  lemma {:induction false} StarsUndone(e: Env, m: Md, s: nat)
    requires m.marks.stars == s
    ensures var n := ResolveStars(e, m); var r := ResolveStars(e, n.(marks := n.marks.(stars := s)));
            r.style == m.style <==> s < 3 || m.style.bold == m.style.italic
  {
    hide ResolveStars;
    var n := ResolveStars(e, m);
    StarsSwitch(e, m);
    StarsSwitch(e, n.(marks := n.marks.(stars := s)));
  }

  /** Two tildes or more, twice, give the style back; one tilde alone never changes it. */
  lemma {:induction false} TildesUndone(e: Env, m: Md, t: nat)
    requires m.marks.tildes == t
    ensures var n := ResolveTildes(e, m); var r := ResolveTildes(e, n.(marks := n.marks.(tildes := t)));
            r.style == m.style && (n.style == m.style <==> t < 2)
  {
    hide Ansi, Times;
  }

  /** Ticks that open and close: inline code by one or two, a fence by three or more. */
  lemma {:induction false} TicksUndone(e: Env, m: Md, t: nat)
    requires m.marks.ticks == t > 0 && (m.style.fence ==> t >= 3)
    ensures var n := ResolveTicks(e, m); var r := ResolveTicks(e, n.(marks := n.marks.(ticks := t)));
            && r.style == m.style && n.style != m.style
            && n.style == (if t >= 3 then m.style.(fence := !m.style.fence) else m.style.(code := !m.style.code))
  {
    hide Ansi, CodeOff, Times;
  }

  // ----- runs of marks in a text

  /** A run of one byte. */
  function Run(c: Byte, n: nat): Text {
    seq(n, _ => c)
  }

  /** The stars, and the tildes, of a run that are shown: those beyond what the run means. */
  function StarsLeft(s: nat): Text {
    Run('*', if s > 3 then s - 3 else 0)
  }

  function TildesLeft(t: nat): Text {
    Run('~', if t >= 2 then t - 2 else t)
  }

  lemma {:induction false} RunGrows(c: Byte, n: nat)
    ensures Run(c, n + 1) == Run(c, n) + [c] && Run(c, n) == Times(c, n) && Run(c, 0) == []
  {
  }

  function WithStars(m: Md, s: nat): Md {
    m.(marks := m.marks.(stars := s))
  }

  function WithTildes(m: Md, t: nat): Md {
    m.(marks := m.marks.(tildes := t))
  }

  lemma {:induction false} WithMarksIsOpen(m: Md, n: nat)
    requires Quiet(m)
    ensures Sane(WithStars(m, n)) && Open(WithStars(m, n)) && WithStars(m, 0) == m
    ensures Sane(WithTildes(m, n)) && Open(WithTildes(m, n)) && WithTildes(m, 0) == m
  {
  }

  lemma {:induction false} OneStar(e: Env, m: Md, s: nat)
    requires Quiet(m)
    ensures AfterCode(e, WithStars(m, s), '*') == Done(WithStars(m, s + 1))
  {
    hide AfterDollar, ResolveStars, ResolveTildes, Sane, Open;
    assert WithStars(m, s).marks.hashes == 0;
    assert WithStars(m, s).out + Times('#', 0) == m.out;
    assert FlushHashes(WithStars(m, s)) == WithStars(m, s);
  }

  lemma {:induction false} OneTilde(e: Env, m: Md, t: nat)
    requires Quiet(m)
    ensures AfterCode(e, WithTildes(m, t), '~') == Done(WithTildes(m, t + 1))
  {
    hide AfterDollar, ResolveStars, ResolveTildes, Sane, HashPart;
  }

  lemma {:induction false} StarsFed(e: Env, m: Md, s: nat)
    requires Quiet(m)
    ensures Sane(m) && Feed(e, m, Run('*', s)) == WithStars(m, s)
  {
    QuietIs(m);
    WithMarksIsOpen(m, s);
    hide Quiet, Sane, Consume, Open;
    RunGrows('*', 0);
    if s == 0 {
      NothingFed(e, m);
    } else {
      StarsFed(e, m, s - 1);
      WithMarksIsOpen(m, s - 1);
      RunGrows('*', s - 1);
      var k, run := WithStars(m, s - 1), Run('*', s);
      assert run[..s - 1] == Run('*', s - 1);
      OpenReachesCode(e, k, '*');
      OneStar(e, m, s - 1);
      ConsumedAtOnce(e, k, '*');
    }
  }

  lemma {:induction false} TildesFed(e: Env, m: Md, t: nat)
    requires Quiet(m)
    ensures Sane(m) && Feed(e, m, Run('~', t)) == WithTildes(m, t)
  {
    QuietIs(m);
    WithMarksIsOpen(m, t);
    hide Quiet, Sane, Consume, Open;
    RunGrows('~', 0);
    if t == 0 {
      NothingFed(e, m);
    } else {
      TildesFed(e, m, t - 1);
      WithMarksIsOpen(m, t - 1);
      RunGrows('~', t - 1);
      var k, run := WithTildes(m, t - 1), Run('~', t);
      assert run[..t - 1] == Run('~', t - 1);
      OpenReachesCode(e, k, '~');
      OneTilde(e, m, t - 1);
      ConsumedAtOnce(e, k, '~');
    }
  }

  /** What the stars, or the tildes, leave behind is quiet again. */
  lemma {:induction false} ResolvedIsQuiet(e: Env, m: Md, n: nat)
    requires Quiet(m)
    ensures Quiet(ResolveStars(e, WithStars(m, n))) && Quiet(ResolveTildes(e, WithTildes(m, n)))
  {
    hide ResolveStars, ResolveTildes;
  }

  lemma {:induction false} StarsThen(e: Env, m: Md, s: nat, c: Byte)
    requires Quiet(m) && c != '*'
    ensures AfterCode(e, WithStars(m, s), c) == AfterCode(e, ResolveStars(e, WithStars(m, s)), c)
  {
    hide ResolveStars, TildePart, HashPart, DollarPart, AfterDollar;
  }

  lemma {:induction false} TildesThen(e: Env, m: Md, t: nat, c: Byte)
    requires Quiet(m) && c != '*' && c != '~'
    ensures AfterCode(e, WithTildes(m, t), c) == AfterCode(e, ResolveTildes(e, WithTildes(m, t)), c)
  {
    hide ResolveStars, HashPart, DollarPart, AfterDollar, Sane, Open, Ansi;
    var n := WithTildes(m, t);
    assert Times('~', 0) == [];
    var r := ResolveTildes(e, n);
    assert ResolveTildes(e, r) == r;
    assert StarPart(e, n, c) == On(n) && StarPart(e, r, c) == On(r);
    assert TildePart(e, n, c) == On(r) && TildePart(e, r, c) == On(r);
  }

  /** The byte after a run of marks meets the state that the run leaves behind. */
  lemma {:induction false} SameAfterMarks(e: Env, m: Md, n: Md, text: Text)
    requires Sane(m) && Open(m) && Quiet(n) && n.style.math == m.style.math && n.head.sol == m.head.sol
    requires PlainIn(m, text) && text != []
    requires AfterCode(e, m, text[0]) == AfterCode(e, n, text[0])
    ensures Feed(e, m, text) == Feed(e, n, text)
  {
    var c := text[0];
    assert text[..0] == [];
    if c != '\n' {
      InertIs(m.style.math, m.head.sol, c);
    }
    QuietIs(n);
    hide *;
    OpenReachesCode(e, m, c);
    OpenReachesCode(e, n, c);
    SameConsume(e, m, n, c);
    SameFirstByte(e, m, n, text);
  }

  lemma {:induction false} SameConsume(e: Env, m: Md, n: Md, c: Byte)
    requires Sane(m) && Sane(n) && Examine(e, m, c) == Examine(e, n, c)
    ensures Consume(e, m, c) == Consume(e, n, c)
  {
    hide Sane, Examine;
  }

  /** Text after a run of stars meets the state that the run leaves behind. */
  lemma {:induction false} StarsResolved(e: Env, m: Md, s: nat, text: Text)
    requires Quiet(m) && PlainIn(m, text) && text != []
    ensures var r := ResolveStars(e, WithStars(m, s)); var (b, i) := Starred(m.style.bold, m.style.italic, s);
            && Sane(m) && Quiet(r) && Sane(r) && PlainIn(r, text) && Feed(e, m, Run('*', s) + text) == Feed(e, r, text)
            && r.style == m.style.(bold := b, italic := i) && r.head == m.head
  {
    var k := WithStars(m, s);
    var r := ResolveStars(e, k);
    assert text[0] != '*' by {
      NotMark(m, text);
    }
    StarsThen(e, m, s, text[0]);
    StarsSwitch(e, k);
    WithMarksIsOpen(m, s);
    ResolvedIsQuiet(e, m, s);
    assert PlainIn(r, text) && PlainIn(k, text) && r.style.math == k.style.math && r.head == k.head;
    hide *;
    QuietIs(r);
    SameAfterMarks(e, k, r, text);
    StarsFed(e, m, s);
    FeedJoins(e, m, Run('*', s), text);
  }

  /** A run of stars before plain text: only those beyond three are shown, bold and italic switch, and the
      text comes byte for byte. */
  lemma {:induction false} StarsThenText(e: Env, m: Md, s: nat, text: Text)
    requires Quiet(m) && !e.color && PlainIn(m, text) && text != []
    ensures var n := Feed(e, m, Run('*', s) + text); var (b, i) := Starred(m.style.bold, m.style.italic, s);
            && Quiet(n) && n.out == m.out + StarsLeft(s) + text
            && n.style == m.style.(bold := b, italic := i, header := n.style.header)
            && n.head.sol == SolAfter(m.head.sol, text)
  {
    hide *;
    StarsResolved(e, m, s, text);
    StarsShown(e, m, s);
    PlainIsVerbatim(e, ResolveStars(e, WithStars(m, s)), text);
  }

  lemma {:induction false} NotMark(m: Md, text: Text)
    requires PlainIn(m, text) && text != []
    ensures text[0] != '*' && text[0] != '~' && text[0] != '`'
  {
    assert text[..0] == [];
    if text[0] != '\n' {
      InertIs(m.style.math, m.head.sol, text[0]);
    }
  }

  lemma {:induction false} StarsShown(e: Env, m: Md, s: nat)
    requires !e.color
    ensures ResolveStars(e, WithStars(m, s)).out == m.out + StarsLeft(s)
  {
    hide Ansi;
  }

  lemma {:induction false} TildesStrike(e: Env, m: Md, t: nat)
    ensures ResolveTildes(e, WithTildes(m, t)).style == m.style.(strike := m.style.strike != (t >= 2))
  {
    hide Ansi, Times;
  }

  /** Text after a run of tildes meets the state that the run leaves behind. */
  lemma {:induction false} TildesResolved(e: Env, m: Md, t: nat, text: Text)
    requires Quiet(m) && PlainIn(m, text) && text != []
    ensures var r := ResolveTildes(e, WithTildes(m, t));
            && Sane(m) && Quiet(r) && Sane(r) && PlainIn(r, text) && Feed(e, m, Run('~', t) + text) == Feed(e, r, text)
            && r.style == m.style.(strike := m.style.strike != (t >= 2)) && r.head == m.head
  {
    var k := WithTildes(m, t);
    var r := ResolveTildes(e, k);
    NotMark(m, text);
    TildesThen(e, m, t, text[0]);
    TildesStrike(e, m, t);
    WithMarksIsOpen(m, t);
    ResolvedIsQuiet(e, m, t);
    assert PlainIn(r, text) && PlainIn(k, text) && r.style.math == k.style.math && r.head == k.head;
    hide *;
    QuietIs(r);
    SameAfterMarks(e, k, r, text);
    TildesFed(e, m, t);
    FeedJoins(e, m, Run('~', t), text);
  }

  /** A run of tildes before plain text: strike switches at two tildes or more, and those beyond two, or the
      one alone, are shown. */
  lemma {:induction false} TildesThenText(e: Env, m: Md, t: nat, text: Text)
    requires Quiet(m) && !e.color && PlainIn(m, text) && text != []
    ensures var n := Feed(e, m, Run('~', t) + text);
            && Quiet(n) && n.out == m.out + TildesLeft(t) + text
            && n.style == m.style.(strike := m.style.strike != (t >= 2), header := n.style.header)
            && n.head.sol == SolAfter(m.head.sol, text)
  {
    hide *;
    TildesResolved(e, m, t, text);
    TildesShown(e, m, t);
    PlainIsVerbatim(e, ResolveTildes(e, WithTildes(m, t)), text);
  }

  lemma {:induction false} TildesShown(e: Env, m: Md, t: nat)
    requires !e.color
    ensures ResolveTildes(e, WithTildes(m, t)).out == m.out + TildesLeft(t)
  {
    hide Ansi;
  }

  // ----- inputs that fail

  /** Three stars with bold alone on: the first run switches italic on, the second switches both off. */
  lemma {:induction false} BoldIsLost(e: Env)
    ensures var m := Bolder(Begin([]), true, false).(marks := Marks(3, 0, 0, 0, 0));
            var n := ResolveStars(e, m); var r := ResolveStars(e, n.(marks := n.marks.(stars := 3)));
            Sane(m) && m.style.bold && !r.style.bold && !r.style.italic
  {
    var m := Bolder(Begin([]), true, false).(marks := Marks(3, 0, 0, 0, 0));
    hide ResolveStars;
    StarsSwitch(e, m);
    var n := ResolveStars(e, m);
    StarsSwitch(e, n.(marks := n.marks.(stars := 3)));
  }

  lemma {:induction false} BeginIsQuiet(out: seq<Octet>)
    ensures Quiet(Begin(out)) && Sane(Begin(out)) && !Begin(out).style.math && !Begin(out).style.header
  {
  }

  const TAGGED: Text := "p"

  /** A block that ends after three ticks and one byte leaves the machine in the language tag. */
  lemma {:induction false} TagStaysOpen(e: Env)
    requires !e.color
    ensures Sane(Begin([]))
    ensures var m := Feed(e, Begin([]), TICKS + TAGGED); m.side.langCol && !Sane(Ended(e, m))
  {
    BeginIsQuiet([]);
    var b := Begin([]);
    hide Sane, Feed, Consume, InCommand, Ended, Quiet;
    QuietIs(b);
    ThreeTicks(e, b);
    var q := b.(marks := b.marks.(ticks := 3));
    SaneTicks(b, 3);
    StillReadingTag(b, q);
    ByteAfterTicks(e, q, 'p');
    var o := Opened(q);
    OpenedIsSane(q);
    TagByte(e, o, 'p');
    FeedJoins(e, b, TICKS, TAGGED);
    OneByte(e, q, 'p');
    EndedIsSane(e, Feed(e, b, TICKS + TAGGED));
  }
}
