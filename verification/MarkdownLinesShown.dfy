/** What a reader of the terminal gets to see of lines, links, math and escapes, in colour and without. */
module MarkdownLinesShown {
  import opened CText
  import opened Markdown
  import opened MarkdownRun
  import opened MarkdownFence
  import opened MarkdownText
  import opened MarkdownSpans
  import opened MarkdownLatex
  import C = MarkdownColour
  import opened MarkdownLines
  import opened MarkdownInline
  import opened MarkdownShown

  /** What holds without colour of the state after a text holds with colour, but for the bytes written. */
  lemma {:induction false} StateInColour(e: Env, p: Env, m: Md, text: Text, k: Md, bytes: seq<Octet>)
    requires C.Plainly(e, p) && Sane(m) && Feed(p, m, text) == k && Quiet(k) && k.out == m.out + bytes
    ensures var n := Feed(e, m, text);
            Quiet(n) && Shows(e, p, m, n, bytes) && n == k.(out := n.out)
  {
    hide *;
    InColour(e, p, m, text, bytes);
    C.ColourOnlyAdds(e, p, m, text);
    OutIsAll(Feed(e, m, text), k);
  }

  lemma {:induction false} OutIsAll(n: Md, k: Md)
    requires k == n.(out := k.out)
    ensures n == k.(out := n.out)
  {
  }

  lemma {:induction false} LineStartIn(m: Md, n: Md)
    requires Quiet(m) && n.head == m.head && LineStart(n)
    ensures LineStart(m)
  {
  }

  /** A number of any length, a dot, a space and text: two spaces, its first 14 digits, the dot, a space, the text. */
  lemma {:induction false} NumberedItemShown(e: Env, p: Env, m: Md, d: Text, rest: Text)
    requires C.Plainly(e, p) && LineStart(m) && d != [] && AllDigits(d) && PlainText(m.style.math, false, rest)
    ensures var n := Feed(e, m, d + ". " + rest);
            && Quiet(n) && Shows(e, p, m, n, "  " + Kept(d) + ". " + rest)
            && n.style == m.style.(header := n.style.header) && n.head.sol == SolAfter(false, rest)
  {
    hide *;
    LineStartIs(m);
    NoColour(e, p);
    NumberedItem(p, m, d, rest);
    assert m.out + "  " + Kept(d) + ". " + rest == m.out + ("  " + Kept(d) + ". " + rest);
    InColour(e, p, m, d + ". " + rest, "  " + Kept(d) + ". " + rest);
  }

  /** A number without a dot and a space behind it is text, of which the first 14 digits are shown. */
  lemma {:induction false} NumberShownAsText(e: Env, p: Env, m: Md, d: Text, dot: bool, rest: Text)
    requires C.Plainly(e, p) && LineStart(m) && d != [] && AllDigits(d) && PlainIn(m, rest) && rest != []
    requires if dot then rest[0] != ' ' else rest[0] != '.'
    ensures var n := Feed(e, m, d + (if dot then DOT else []) + rest);
            && Quiet(n) && Shows(e, p, m, n, Number(d, dot) + rest)
            && n.style == m.style.(header := n.style.header) && n.head.sol == SolAfter(true, rest)
  {
    hide *;
    LineStartIs(m);
    NoColour(e, p);
    NumberIsText(p, m, d, dot, rest);
    assert m.out + Number(d, dot) + rest == m.out + (Number(d, dot) + rest);
    InColour(e, p, m, d + (if dot then DOT else []) + rest, Number(d, dot) + rest);
  }

  /** A dash, a space and text: a bullet and the text. */
  lemma {:induction false} BulletItemShown(e: Env, p: Env, m: Md, rest: Text)
    requires C.Plainly(e, p) && LineStart(m) && PlainText(m.style.math, false, rest)
    ensures var n := Feed(e, m, "- " + rest);
            && Quiet(n) && Shows(e, p, m, n, BULLET + rest)
            && n.style == m.style.(header := n.style.header) && n.head.sol == SolAfter(false, rest)
  {
    hide *;
    LineStartIs(m);
    NoColour(e, p);
    BulletItem(p, m, rest);
    assert m.out + BULLET + rest == m.out + (BULLET + rest);
    InColour(e, p, m, "- " + rest, BULLET + rest);
  }

  /** Three dashes or more and a newline: a rule as wide as the terminal, 72 columns at most. */
  lemma {:induction false} RuleShown(e: Env, p: Env, m: Md, n: nat)
    requires C.Plainly(e, p) && LineStart(m) && n >= 3
    ensures var k := Feed(e, m, Run('-', n) + NEWLINE);
            LineStart(k) && Shows(e, p, m, k, Bars(e.width) + NEWLINE) && k == m.(out := k.out)
  {
    hide *;
    LineStartIs(m);
    NoColour(e, p);
    DashesDrawRule(p, m, n);
    var bytes := Bars(e.width) + NEWLINE;
    assert m.out + Bars(e.width) + NEWLINE == m.out + bytes;
    LineStartIs(m.(out := m.out + bytes));
    StateInColour(e, p, m, Run('-', n) + NEWLINE, m.(out := m.out + bytes), bytes);
    LineStartIn(Feed(e, m, Run('-', n) + NEWLINE), m);
  }

  /** Dashes that draw no rule and open no item are text. */
  lemma {:induction false} DashesShownAsText(e: Env, p: Env, m: Md, n: nat, rest: Text)
    requires C.Plainly(e, p) && LineStart(m) && n >= 1 && PlainIn(m, rest) && rest != []
    requires (n == 1 ==> rest[0] != ' ') && (n >= 3 ==> rest[0] != '\n')
    ensures var k := Feed(e, m, Run('-', n) + rest);
            && Quiet(k) && Shows(e, p, m, k, Run('-', n) + rest)
            && k.style == m.style.(header := k.style.header) && k.head.sol == SolAfter(true, rest)
  {
    hide *;
    LineStartIs(m);
    NoColour(e, p);
    DashesAreText(p, m, n, rest);
    assert m.out + Run('-', n) + rest == m.out + (Run('-', n) + rest);
    InColour(e, p, m, Run('-', n) + rest, Run('-', n) + rest);
  }

  /** A header: the hashes and their space go, the title is shown, and the header is on until its newline. */
  lemma {:induction false} HeaderShown(e: Env, p: Env, m: Md, n: nat, title: Text)
    requires C.Plainly(e, p) && LineStart(m) && n >= 1 && '\n' !in title && PlainText(m.style.math, false, title)
    ensures Feed(e, m, Run('#', n) + SPACE + title).style.header
    ensures var k := Feed(e, m, Run('#', n) + SPACE + title + NEWLINE);
            LineStart(k) && Shows(e, p, m, k, title + NEWLINE) && k.style == m.style.(header := false)
  {
    hide *;
    LineStartIs(m);
    NoColour(e, p);
    HeaderLine(p, m, n, title);
    C.ColourOnlyAdds(e, p, m, Run('#', n) + SPACE + title);
    SameStyle(Feed(e, m, Run('#', n) + SPACE + title), Feed(p, m, Run('#', n) + SPACE + title));
    var text := Run('#', n) + SPACE + title + NEWLINE;
    assert m.out + title + NEWLINE == m.out + (title + NEWLINE);
    LineStartIs(Feed(p, m, text));
    InColour(e, p, m, text, title + NEWLINE);
    LineStartIn(Feed(e, m, text), Feed(p, m, text));
  }

  lemma {:induction false} SameStyle(n: Md, k: Md)
    requires k == n.(out := k.out)
    ensures n.style == k.style
  {
  }

  /** Hashes without a space behind them are text. */
  lemma {:induction false} HashesShownAsText(e: Env, p: Env, m: Md, h: nat, rest: Text)
    requires C.Plainly(e, p) && LineStart(m) && h >= 1 && PlainIn(m, rest) && rest != [] && rest[0] != ' '
    ensures var n := Feed(e, m, Run('#', h) + rest);
            && Quiet(n) && Shows(e, p, m, n, Run('#', h) + rest)
            && n.style == m.style.(header := n.style.header) && n.head.sol == SolAfter(true, rest)
  {
    hide *;
    LineStartIs(m);
    NoColour(e, p);
    HashesAreText(p, m, h, rest);
    assert m.out + Run('#', h) + rest == m.out + (Run('#', h) + rest);
    InColour(e, p, m, Run('#', h) + rest, Run('#', h) + rest);
  }

  /** The quote mark, a space and text: a bar, a space and the text. */
  lemma {:induction false} QuotedLineShown(e: Env, p: Env, m: Md, rest: Text)
    requires C.Plainly(e, p) && LineStart(m) && PlainText(m.style.math, false, rest)
    ensures var n := Feed(e, m, "> " + rest);
            && Quiet(n) && Shows(e, p, m, n, QUOTE_BAR + rest)
            && n.style == m.style.(header := n.style.header) && n.head.sol == SolAfter(false, rest)
  {
    hide *;
    LineStartIs(m);
    NoColour(e, p);
    QuotedLine(p, m, rest);
    assert m.out + QUOTE_BAR + rest == m.out + (QUOTE_BAR + rest);
    InColour(e, p, m, "> " + rest, QUOTE_BAR + rest);
  }

  /** The quote mark without a space behind it is text. */
  lemma {:induction false} GtShownAsText(e: Env, p: Env, m: Md, rest: Text)
    requires C.Plainly(e, p) && LineStart(m) && PlainIn(m, rest) && rest != [] && rest[0] != ' '
    ensures var n := Feed(e, m, GT + rest);
            && Quiet(n) && Shows(e, p, m, n, GT + rest)
            && n.style == m.style.(header := n.style.header) && n.head.sol == SolAfter(true, rest)
  {
    hide *;
    LineStartIs(m);
    NoColour(e, p);
    GtIsText(p, m, rest);
    assert m.out + GT + rest == m.out + (GT + rest);
    InColour(e, p, m, GT + rest, GT + rest);
  }

  /** A link: its text and its address are shown, the brackets are not. */
  lemma {:induction false} LinkShown(e: Env, p: Env, m: Md, a: Text, url: Text, rest: Text)
    requires C.Plainly(e, p) && Quiet(m) && m.side.link == 0 && PlainIn(m, a)
    requires var sol := SolAfter(m.head.sol, a);
             PlainText(m.style.math, sol, url) && PlainText(m.style.math, SolAfter(sol, url), rest)
    ensures var n := Feed(e, m, OPEN_LINK + a + CLOSE_LINK + "(" + url + ")" + rest);
            && Quiet(n) && Shows(e, p, m, n, a + url + rest)
            && n.style == m.style.(header := n.style.header) && n.side.link == 0
  {
    hide *;
    QuietIs(m);
    NoColour(e, p);
    WholeLink(p, m, a, url, rest);
    assert m.out + a + url + rest == m.out + (a + url + rest);
    InColour(e, p, m, OPEN_LINK + a + CLOSE_LINK + "(" + url + ")" + rest, a + url + rest);
  }

  /** Square brackets without an address: the brackets go, and the link is over. */
  lemma {:induction false} BracketsShown(e: Env, p: Env, m: Md, a: Text, rest: Text)
    requires C.Plainly(e, p) && Quiet(m) && m.side.link == 0 && PlainIn(m, a)
    requires rest != [] && PlainText(m.style.math, SolAfter(m.head.sol, a), rest)
    ensures var n := Feed(e, m, OPEN_LINK + a + CLOSE_LINK + rest);
            && Quiet(n) && Shows(e, p, m, n, a + rest)
            && n.style == m.style.(header := n.style.header) && n.side.link == 0
  {
    hide *;
    QuietIs(m);
    NoColour(e, p);
    LinkWithoutAddress(p, m, a, rest);
    assert m.out + a + rest == m.out + (a + rest);
    InColour(e, p, m, OPEN_LINK + a + CLOSE_LINK + rest, a + rest);
  }

  /** Text between dollars, one or more on either side: the dollars go, and math is on for the text between. */
  lemma {:induction false} DollarsShown(e: Env, p: Env, m: Md, k: nat, inner: Text, j: nat, rest: Text)
    requires C.Plainly(e, p) && Quiet(m) && k >= 1 && j >= 1 && inner != [] && rest != []
    requires PlainText(!m.style.math, m.head.sol, inner)
    requires PlainText(m.style.math, SolAfter(m.head.sol, inner), rest)
    requires inner[0] != '^' && inner[0] != '_' && rest[0] != '^' && rest[0] != '_'
    ensures Feed(e, m, Run('$', k) + inner).style.math == !m.style.math
    ensures var n := Feed(e, m, Run('$', k) + inner + Run('$', j) + rest);
            && Quiet(n) && Shows(e, p, m, n, inner + rest)
            && n.style == m.style.(header := n.style.header)
  {
    hide *;
    QuietIs(m);
    NoColour(e, p);
    C.ColourOnlyAdds(e, p, m, Run('$', k) + inner);
    SameStyle(Feed(e, m, Run('$', k) + inner), Feed(p, m, Run('$', k) + inner));
    BetweenDollars(p, m, k, inner, j, rest);
    assert m.out + inner + rest == m.out + (inner + rest);
    InColour(e, p, m, Run('$', k) + inner + Run('$', j) + rest, inner + rest);
  }

  /** In math, one byte after the mark is raised or lowered. */
  lemma {:induction false} ShiftShown(e: Env, p: Env, m: Md, up: bool, c: Byte)
    requires C.Plainly(e, p) && Quiet(m) && m.style.math && !m.side.supBrace && c != '{'
    ensures var n := Feed(e, m, [Mark(up), c]);
            Quiet(n) && Shows(e, p, m, n, Shift(p, up, c)) && n == m.(out := n.out)
  {
    hide *;
    QuietIs(m);
    NoColour(e, p);
    OneShifted(p, m, up, c);
    StateInColour(e, p, m, [Mark(up), c], m.(out := m.out + Shift(p, up, c)), Shift(p, up, c));
  }

  /** In math, the bytes in braces after the mark are raised or lowered, each by itself. */
  lemma {:induction false} ShiftsShown(e: Env, p: Env, m: Md, up: bool, t: Text)
    requires C.Plainly(e, p) && Quiet(m) && m.style.math && !m.side.supBrace && '}' !in t
    ensures var n := Feed(e, m, [Mark(up)] + "{" + t + "}");
            Quiet(n) && Shows(e, p, m, n, ShiftAll(p, up, t)) && n == m.(out := n.out)
  {
    hide *;
    QuietIs(m);
    NoColour(e, p);
    AllShifted(p, m, up, t);
    StateInColour(e, p, m, [Mark(up)] + "{" + t + "}", m.(out := m.out + ShiftAll(p, up, t)), ShiftAll(p, up, t));
  }

  /** A backslash and a mark show the mark. */
  lemma {:induction false} EscapedMarkShown(e: Env, p: Env, m: Md, c: Byte)
    requires C.Plainly(e, p) && Quiet(m)
    requires c == '#' || c == '$' || c == '%' || c == '&' || c == '_' || c == '{' || c == '}'
    ensures var n := Feed(e, m, BACKSLASH + [c]);
            Quiet(n) && Shows(e, p, m, n, [c]) && n == Named(m, [c]).(out := n.out)
  {
    hide *;
    QuietIs(m);
    NoColour(e, p);
    EscapedMark(p, m, c);
    NamedOut(m, [c]);
    StateInColour(e, p, m, BACKSLASH + [c], Named(m, [c]), [c]);
  }

  /** The spaces and the line break after a backslash. */
  lemma {:induction false} EscapedSpaceShown(e: Env, p: Env, m: Md, c: Byte, shown: Text)
    requires C.Plainly(e, p) && Quiet(m)
    requires || (c == ',' && shown == [0xE2 as char, 0x80 as char, 0x89 as char])
             || ((c == ';' || c == ':' || c == ' ') && shown == [' ']) || (c == '!' && shown == [])
             || (c == '\\' && shown == ['\n'])
    ensures var n := Feed(e, m, BACKSLASH + [c]);
            Quiet(n) && Shows(e, p, m, n, shown) && n == Named(m, shown).(out := n.out)
  {
    hide *;
    QuietIs(m);
    NoColour(e, p);
    EscapedSpace(p, m, c, shown);
    NamedOut(m, shown);
    StateInColour(e, p, m, BACKSLASH + [c], Named(m, shown), shown);
  }

  /** A backslash before a byte that makes nothing else of it is shown. */
  lemma {:induction false} BackslashShown(e: Env, p: Env, m: Md, text: Text)
    requires C.Plainly(e, p) && Quiet(m) && PlainIn(m, text) && text != []
    requires !IsLetter(text[0]) && text[0] !in AFTER_BACKSLASH
    ensures var n := Feed(e, m, BACKSLASH + text);
            && Quiet(n) && Shows(e, p, m, n, BACKSLASH + text)
            && n.style == m.style.(header := n.style.header)
  {
    hide *;
    QuietIs(m);
    NoColour(e, p);
    LettersAreAlpha(text[0]);
    BackslashIsText(p, m, text);
    assert m.out + BACKSLASH + text == m.out + (BACKSLASH + text);
    InColour(e, p, m, BACKSLASH + text, BACKSLASH + text);
  }

  lemma {:induction false} NamedOut(m: Md, shown: Text)
    ensures Named(m, shown).out == m.out + shown
  {
  }

  // ----- the end of a block

  lemma {:induction false} EndInColour(e: Env, p: Env, m: Md, bytes: seq<Octet>)
    requires C.Plainly(e, p) && Sane(m) && Ended(p, m).out == m.out + bytes
    ensures Shows(e, p, m, Ended(e, m), bytes)
  {
    hide *;
    C.ColourOnlyAdds(e, p, m, []);
    NothingFed(e, m);
    NothingFed(p, m);
    ShowsIs(e, p, m, Ended(e, m), bytes, Ended(p, m).out);
  }

  lemma {:induction false} PendingIsSane(m: Md, n: nat)
    requires Quiet(m)
    ensures Sane(WithStars(m, n)) && Sane(WithTildes(m, n)) && Sane(WithTicks(m, n)) && Sane(WithHashes(m, n))
    ensures Sane(WithDollars(m, n)) && WithStars(m, n).out == WithTildes(m, n).out == WithTicks(m, n).out == m.out
    ensures WithHashes(m, n).out == WithDollars(m, n).out == m.out
  {
  }

  lemma {:induction false} SameShows(e: Env, p: Env, m: Md, k: Md, n: Md, bytes: seq<Octet>)
    requires Shows(e, p, k, n, bytes) && k.out == m.out
    ensures Shows(e, p, m, n, bytes)
  {
  }

  /** The marks that are pending when a block ends are shown, all but dollars, which are lost. */
  lemma {:induction false} PendingMarksShown(e: Env, p: Env, m: Md, n: nat)
    requires C.Plainly(e, p) && Quiet(m)
    ensures Shows(e, p, m, Ended(e, WithStars(m, n)), Run('*', n))
    ensures Shows(e, p, m, Ended(e, WithTildes(m, n)), Run('~', n))
    ensures Shows(e, p, m, Ended(e, WithTicks(m, n)), Run('`', n))
    ensures Shows(e, p, m, Ended(e, WithHashes(m, n)), Run('#', n))
    ensures Shows(e, p, m, Ended(e, WithDollars(m, n)), [])
  {
    hide *;
    NoColour(e, p);
    EndShowsMarks(p, m, n);
    PendingIsSane(m, n);
    assert m.out + [] == m.out;
    EndInColour(e, p, WithStars(m, n), Run('*', n));
    EndInColour(e, p, WithTildes(m, n), Run('~', n));
    EndInColour(e, p, WithTicks(m, n), Run('`', n));
    EndInColour(e, p, WithHashes(m, n), Run('#', n));
    EndInColour(e, p, WithDollars(m, n), []);
    SameShows(e, p, m, WithStars(m, n), Ended(e, WithStars(m, n)), Run('*', n));
    SameShows(e, p, m, WithTildes(m, n), Ended(e, WithTildes(m, n)), Run('~', n));
    SameShows(e, p, m, WithTicks(m, n), Ended(e, WithTicks(m, n)), Run('`', n));
    SameShows(e, p, m, WithHashes(m, n), Ended(e, WithHashes(m, n)), Run('#', n));
    SameShows(e, p, m, WithDollars(m, n), Ended(e, WithDollars(m, n)), []);
  }

  lemma {:induction false} HeldIsSane(m: Md, n: nat, d: Text, dot: bool)
    requires LineStart(m) && |d| <= 14
    ensures Sane(WithDashes(m, n)) && Sane(WithDigits(m, d, dot)) && Sane(WithGt(m))
    ensures WithDashes(m, n).out == WithDigits(m, d, dot).out == WithGt(m).out == m.out
  {
  }

  /** So is what a line start holds back: dashes, a number with or without its dot, a quote mark. */
  lemma {:induction false} LineStartHeldShown(e: Env, p: Env, m: Md, n: nat, d: Text, dot: bool)
    requires C.Plainly(e, p) && LineStart(m) && d != [] && |d| <= 14
    ensures Shows(e, p, m, Ended(e, WithDashes(m, n)), Run('-', n))
    ensures Shows(e, p, m, Ended(e, WithDigits(m, d, dot)), d + (if dot then DOT else []))
    ensures Shows(e, p, m, Ended(e, WithGt(m)), GT)
  {
    hide *;
    NoColour(e, p);
    EndShowsLineStart(p, m, n, d, dot);
    HeldIsSane(m, n, d, dot);
    var number := d + (if dot then DOT else []);
    assert m.out + d + (if dot then DOT else []) == m.out + number;
    EndInColour(e, p, WithDashes(m, n), Run('-', n));
    EndInColour(e, p, WithDigits(m, d, dot), number);
    EndInColour(e, p, WithGt(m), GT);
    SameShows(e, p, m, WithDashes(m, n), Ended(e, WithDashes(m, n)), Run('-', n));
    SameShows(e, p, m, WithDigits(m, d, dot), Ended(e, WithDigits(m, d, dot)), number);
    SameShows(e, p, m, WithGt(m), Ended(e, WithGt(m)), GT);
  }
}
