/** What the start of a line makes of digits, dashes, hashes and the quote mark. */
module MarkdownLines {
  import opened Options
  import opened CText
  import opened Markdown
  import opened MarkdownRun
  import opened MarkdownFence
  import opened MarkdownText
  import Utf8

  /** Between marks, at the start of a line. */
  predicate LineStart(m: Md) {
    Quiet(m) && m.head.sol
  }

  lemma {:induction false} LineStartIs(m: Md)
    requires LineStart(m)
    ensures Quiet(m) && Sane(m)
  {
  }

  /** Nothing is pending but, perhaps, the start of a line. */
  predicate Calm(m: Md) {
    Sane(m) && Open(m) && NoMarks(m) && m.marks.dollars == 0
  }

  lemma {:induction false} CalmReaches(e: Env, m: Md, c: Byte)
    requires Calm(m) && c != '`' && c != '*' && c != '~' && c != '$' && !(m.head.sol && c == '#')
    requires m.style.math ==> c != '^' && c != '_'
    ensures Examine(e, m, c) == AfterDollar(e, m, c)
  {
    hide AfterDollar, Sane, Examine;
    OpenReachesCode(e, m, c);
    NothingToResolve(e, m);
  }

  lemma {:induction false} NothingToResolve(e: Env, m: Md)
    requires NoMarks(m)
    ensures FlushHashes(m) == m && ResolveTildes(e, m) == m && ResolveStars(e, m) == m
  {
  }

  /** What comes after a mark meets the state that the mark leaves. */
  lemma {:induction false} SameAfterDollar(e: Env, m: Md, n: Md, c: Byte)
    requires Calm(m) && Calm(n) && c != '`' && c != '*' && c != '~' && c != '$'
    requires (m.head.sol || n.head.sol) ==> c != '#'
    requires (m.style.math || n.style.math) ==> c != '^' && c != '_'
    requires AfterDollar(e, m, c) == AfterDollar(e, n, c)
    ensures Sane(m) && Sane(n) && Consume(e, m, c) == Consume(e, n, c)
  {
    hide Sane, AfterDollar, Examine, Open, NoMarks;
    CalmReaches(e, m, c);
    CalmReaches(e, n, c);
    SameConsume(e, m, n, c);
  }

  lemma {:induction false} TakenAtDollar(e: Env, m: Md, c: Byte)
    requires Calm(m) && c != '`' && c != '*' && c != '~' && c != '$' && !(m.head.sol && c == '#')
    requires (m.style.math ==> c != '^' && c != '_') && AfterDollar(e, m, c).Done?
    ensures Sane(m) && Consume(e, m, c) == AfterDollar(e, m, c).m
  {
    hide Sane, AfterDollar, Examine, Open, NoMarks;
    CalmReaches(e, m, c);
    ConsumedAtOnce(e, m, c);
  }

  // ----- numbered lists

  /** The digits that are kept of a number. */
  function Kept(d: Text): Text {
    if |d| <= 14 then d else d[..14]
  }

  const DOT: Text := "."
  const SPACE: Text := " "

  function WithDigits(m: Md, d: Text, dot: bool): Md {
    m.(head := m.head.(digits := d, dot := dot))
  }

  lemma {:induction false} WithDigitsIsCalm(m: Md, d: Text, dot: bool)
    requires LineStart(m) && |d| <= 14
    ensures Calm(WithDigits(m, d, dot)) && Sane(WithDigits(m, d, dot)) && WithDigits(m, [], false) == m
  {
  }

  lemma {:induction false} KeptGrows(d: Text, c: Byte)
    ensures |Kept(d)| <= 14 && (d != [] ==> Kept(d) != [])
    ensures Kept(d + [c]) == if |Kept(d)| < 14 then Kept(d) + [c] else Kept(d)
  {
    if |d| >= 14 {
      assert (d + [c])[..14] == d[..14];
    }
  }

  lemma {:induction false} DigitRead(e: Env, m: Md, d: Text, c: Byte)
    requires LineStart(m) && '0' <= c <= '9'
    ensures var k := WithDigits(m, Kept(d), false);
            Sane(k) && Consume(e, k, c) == WithDigits(m, Kept(d + [c]), false)
  {
    var k := WithDigits(m, Kept(d), false);
    KeptGrows(d, c);
    WithDigitsIsCalm(m, Kept(d), false);
    hide Calm, Quiet, Kept, DashPart, AfterDash;
    assert AfterDollar(e, k, c) == Done(WithDigits(m, Kept(d + [c]), false));
    TakenAtDollar(e, k, c);
  }

  lemma {:induction false} DigitsRead(e: Env, m: Md, d: Text)
    requires LineStart(m) && AllDigits(d)
    ensures Sane(m) && Feed(e, m, d) == WithDigits(m, Kept(d), false)
    decreases |d|
  {
    hide *;
    LineStartIs(m);
    if d == [] {
      NothingFed(e, m);
      NoDigits(m);
    } else {
      var k := |d| - 1;
      DigitsBefore(d);
      DigitsRead(e, m, d[..k]);
      DigitRead(e, m, d[..k], d[k]);
      FeedMore(e, m, d, k);
      assert d[..k + 1] == d == d[..k] + [d[k]];
    }
  }

  lemma {:induction false} NoDigits(m: Md)
    requires LineStart(m)
    ensures WithDigits(m, Kept([]), false) == m
  {
  }

  lemma {:induction false} DigitsBefore(d: Text)
    requires AllDigits(d) && d != []
    ensures AllDigits(d[..|d| - 1]) && '0' <= d[|d| - 1] <= '9'
  {
  }

  lemma {:induction false} DotRead(e: Env, m: Md, d: Text)
    requires LineStart(m) && d != [] && |d| <= 14
    ensures var k := WithDigits(m, d, false); Sane(k) && Consume(e, k, '.') == WithDigits(m, d, true)
  {
    var k := WithDigits(m, d, false);
    WithDigitsIsCalm(m, d, false);
    hide Calm, Quiet, DashPart, AfterDash;
    assert AfterDollar(e, k, '.') == Done(WithDigits(m, d, true));
    TakenAtDollar(e, k, '.');
  }

  /** Past the mark of an item. */
  function InItem(m: Md, shown: seq<Octet>): Md {
    m.(out := m.out + shown, head := m.head.(sol := false))
  }

  lemma {:induction false} InItemIsQuiet(m: Md, shown: seq<Octet>)
    requires LineStart(m)
    ensures Quiet(InItem(m, shown)) && Sane(InItem(m, shown)) && !InItem(m, shown).head.sol
    ensures InItem(m, shown).style == m.style && InItem(m, shown).side == m.side
  {
  }

  lemma {:induction false} NumberShown(e: Env, m: Md, d: Text)
    requires LineStart(m) && d != [] && |d| <= 14
    ensures var k := WithDigits(m, d, true); Sane(k) && Consume(e, k, ' ') == InItem(m, "  " + d + ". ")
  {
    var k := WithDigits(m, d, true);
    WithDigitsIsCalm(m, d, true);
    assert m.head.digits == [] && !m.head.dot;
    hide Calm, Quiet, DashPart, AfterDash, HeldDigits;
    assert AfterDollar(e, k, ' ') == Done(InItem(m, "  " + d + ". "));
    TakenAtDollar(e, k, ' ');
  }

  /** A number, a dot, a space and text: two spaces, the first 14 digits, the dot, a space and the text. */
  lemma {:induction false} NumberedItem(e: Env, m: Md, d: Text, rest: Text)
    requires LineStart(m) && !e.color && d != [] && AllDigits(d) && PlainText(m.style.math, false, rest)
    ensures var n := Feed(e, m, d + ". " + rest);
            && Quiet(n) && n.out == m.out + "  " + Kept(d) + ". " + rest
            && n.style == m.style.(header := n.style.header) && n.head.sol == SolAfter(false, rest)
  {
    hide *;
    LineStartIs(m);
    KeptGrows(d, '0');
    DigitsRead(e, m, d);
    DotRead(e, m, Kept(d));
    NumberShown(e, m, Kept(d));
    OneByte(e, WithDigits(m, Kept(d), false), '.');
    OneByte(e, WithDigits(m, Kept(d), true), ' ');
    FeedJoins(e, m, d, ['.']);
    FeedJoins(e, m, d + ['.'], [' ']);
    assert d + ['.'] + [' '] == d + ". ";
    RestOfItem(e, m, d + ". ", "  " + Kept(d) + ". ", rest);
    assert m.out + ("  " + Kept(d) + ". ") + rest == m.out + "  " + Kept(d) + ". " + rest;
  }

  /** The text of an item after a mark that shows something. */
  lemma {:induction false} RestOfItem(e: Env, m: Md, mark: Text, shown: seq<Octet>, rest: Text)
    requires LineStart(m) && Sane(m) && !e.color && Feed(e, m, mark) == InItem(m, shown)
    requires PlainText(m.style.math, false, rest)
    ensures var n := Feed(e, m, mark + rest);
            && Quiet(n) && n.out == m.out + shown + rest
            && n.style == m.style.(header := n.style.header) && n.head.sol == SolAfter(false, rest)
  {
    var n := InItem(m, shown);
    assert n.style.math == m.style.math && !n.head.sol && n.out == m.out + shown;
    assert PlainIn(n, rest);
    hide *;
    InItemIsQuiet(m, shown);
    PlainIsVerbatim(e, n, rest);
    FeedJoins(e, m, mark, rest);
  }

  /** A line start again, after bytes that turned out to be text. */
  function AfterText(m: Md, shown: Text): Md {
    m.(out := m.out + shown)
  }

  lemma {:induction false} AfterTextIs(m: Md, shown: Text)
    requires LineStart(m)
    ensures LineStart(AfterText(m, shown)) && Calm(AfterText(m, shown)) && Sane(AfterText(m, shown))
  {
  }

  /** Marks that turned out to be text, shown with what follows them. */
  lemma {:induction false} RestOfText(e: Env, m: Md, mark: Text, k: Md, shown: Text, rest: Text)
    requires LineStart(m) && Sane(m) && !e.color && Feed(e, m, mark) == k && Calm(k) && Sane(k)
    requires PlainIn(m, rest) && rest != [] && k.style.math == m.style.math && k.head.sol
    requires AfterDollar(e, k, rest[0]) == AfterDollar(e, AfterText(m, shown), rest[0])
    ensures var n := Feed(e, m, mark + rest);
            && Quiet(n) && n.out == m.out + shown + rest
            && n.style == m.style.(header := n.style.header) && n.head.sol == SolAfter(true, rest)
  {
    var n := AfterText(m, shown);
    LineMarkFree(m, rest);
    assert PlainIn(n, rest) && n.out == m.out + shown && n.style == m.style && n.head.sol;
    AfterTextIs(m, shown);
    LineStartIs(n);
    hide *;
    SameAfterDollar(e, k, n, rest[0]);
    SameFirstByte(e, k, n, rest);
    PlainIsVerbatim(e, n, rest);
    FeedJoins(e, m, mark, rest);
  }

  lemma {:induction false} LineMarkFree(m: Md, rest: Text)
    requires PlainIn(m, rest) && rest != [] && m.head.sol
    ensures var c := rest[0];
            && c != '`' && c != '*' && c != '~' && c != '$' && c != '#' && c != '\\' && c != '-' && c != '>'
            && !('0' <= c <= '9') && (m.style.math ==> c != '^' && c != '_')
  {
    assert rest[..0] == [];
    if rest[0] != '\n' {
      InertIs(m.style.math, m.head.sol, rest[0]);
    }
  }

  function Number(d: Text, dot: bool): Text {
    Kept(d) + (if dot then DOT else [])
  }

  lemma {:induction false} DigitsThen(e: Env, m: Md, d: Text, dot: bool, c: Byte)
    requires LineStart(m) && d != [] && |d| <= 14 && c != '\\' && !('0' <= c <= '9')
    requires if dot then c != ' ' else c != '.'
    ensures AfterDollar(e, WithDigits(m, d, dot), c)
            == AfterDollar(e, AfterText(m, d + (if dot then DOT else [])), c)
  {
    hide DashPart, AfterDash, Sane, Open, NoMarks;
    var k := WithDigits(m, d, dot);
    assert HeldDigits(k.head) == d + (if dot then DOT else []);
    assert DigitPart(k, c) == On(AfterText(m, d + (if dot then DOT else [])));
  }

  /** A number that no dot and space make an item is text, of which the first 14 digits are shown. */
  lemma {:induction false} NumberIsText(e: Env, m: Md, d: Text, dot: bool, rest: Text)
    requires LineStart(m) && !e.color && d != [] && AllDigits(d) && PlainIn(m, rest) && rest != []
    requires if dot then rest[0] != ' ' else rest[0] != '.'
    ensures var n := Feed(e, m, d + (if dot then DOT else []) + rest);
            && Quiet(n) && n.out == m.out + Number(d, dot) + rest
            && n.style == m.style.(header := n.style.header) && n.head.sol == SolAfter(true, rest)
  {
    var k := WithDigits(m, Kept(d), dot);
    KeptGrows(d, '0');
    LineMarkFree(m, rest);
    DigitsThen(e, m, Kept(d), dot, rest[0]);
    WithDigitsIsCalm(m, Kept(d), dot);
    assert Number(d, dot) == Kept(d) + (if dot then DOT else []) && k.head.sol && k.style == m.style;
    assert DOT == ['.'];
    hide *;
    LineStartIs(m);
    DigitsRead(e, m, d);
    if dot {
      DotRead(e, m, Kept(d));
      OneByte(e, WithDigits(m, Kept(d), false), '.');
      FeedJoins(e, m, d, DOT);
    } else {
      assert d + [] == d;
    }
    RestOfText(e, m, d + (if dot then DOT else []), k, Number(d, dot), rest);
  }

  // ----- bullets and rules

  function WithDashes(m: Md, n: nat): Md {
    m.(head := m.head.(dashes := n))
  }

  lemma {:induction false} WithDashesIsCalm(m: Md, n: nat)
    requires LineStart(m)
    ensures Calm(WithDashes(m, n)) && Sane(WithDashes(m, n)) && WithDashes(m, 0) == m
  {
  }

  lemma {:induction false} DashRead(e: Env, m: Md, n: nat)
    requires LineStart(m)
    ensures Sane(WithDashes(m, n)) && Consume(e, WithDashes(m, n), '-') == WithDashes(m, n + 1)
  {
    WithDashesIsCalm(m, n);
    hide Calm, Sane, Open, NoMarks, AfterDash;
    assert AfterDollar(e, WithDashes(m, n), '-') == Done(WithDashes(m, n + 1));
    TakenAtDollar(e, WithDashes(m, n), '-');
  }

  lemma {:induction false} DashesRead(e: Env, m: Md, n: nat)
    requires LineStart(m)
    ensures Sane(m) && Feed(e, m, Run('-', n)) == WithDashes(m, n)
  {
    hide *;
    LineStartIs(m);
    RunGrows('-', 0);
    if n == 0 {
      NothingFed(e, m);
      WithDashesIsCalm(m, 0);
    } else {
      DashesRead(e, m, n - 1);
      DashRead(e, m, n - 1);
      RunGrows('-', n - 1);
      FeedJoins(e, m, Run('-', n - 1), ['-']);
      OneByte(e, WithDashes(m, n - 1), '-');
    }
  }

  const BULLET: seq<Octet> := "  " + Utf8.Encode(0x2022) + " "

  lemma {:induction false} BulletShown(e: Env, m: Md)
    requires LineStart(m)
    ensures Sane(WithDashes(m, 1)) && Consume(e, WithDashes(m, 1), ' ') == InItem(m, BULLET)
  {
    WithDashesIsCalm(m, 1);
    assert m.head.dashes == 0;
    hide Calm, Sane, Open, NoMarks, AfterDash, Utf8.Encode;
    assert AfterDollar(e, WithDashes(m, 1), ' ') == Done(InItem(m, BULLET));
    TakenAtDollar(e, WithDashes(m, 1), ' ');
  }

  /** A dash, a space and text: two spaces, a bullet, a space and the text. */
  lemma {:induction false} BulletItem(e: Env, m: Md, rest: Text)
    requires LineStart(m) && !e.color && PlainText(m.style.math, false, rest)
    ensures var n := Feed(e, m, "- " + rest);
            && Quiet(n) && n.out == m.out + BULLET + rest
            && n.style == m.style.(header := n.style.header) && n.head.sol == SolAfter(false, rest)
  {
    assert Run('-', 1) + [' '] == "- ";
    hide *;
    LineStartIs(m);
    DashesRead(e, m, 1);
    BulletShown(e, m);
    OneByte(e, WithDashes(m, 1), ' ');
    FeedJoins(e, m, Run('-', 1), [' ']);
    RestOfItem(e, m, "- ", BULLET, rest);
  }

  /** A rule: as many bars as the terminal is wide, 72 at most. */
  function Bars(width: nat): seq<Octet> {
    Repeat(Utf8.Encode(0x2500), if width < 72 then width else 72)
  }

  lemma {:induction false} RuleDrawn(e: Env, m: Md, n: nat)
    requires LineStart(m) && n >= 3 && !e.color
    ensures Sane(WithDashes(m, n)) && Consume(e, WithDashes(m, n), '\n') == m.(out := m.out + Bars(e.width) + NEWLINE)
  {
    WithDashesIsCalm(m, n);
    assert m.head.dashes == 0;
    hide Calm, Sane, Open, NoMarks, AfterDash, Utf8.Encode, Repeat;
    assert Rule(e, WithDashes(m, n)).out == m.out + Bars(e.width) + NEWLINE;
    assert AfterDollar(e, WithDashes(m, n), '\n') == Done(m.(out := m.out + Bars(e.width) + NEWLINE));
    TakenAtDollar(e, WithDashes(m, n), '\n');
  }

  /** Three dashes or more and a newline: a rule, and the start of the next line. */
  lemma {:induction false} DashesDrawRule(e: Env, m: Md, n: nat)
    requires LineStart(m) && n >= 3 && !e.color
    ensures Sane(m) && Feed(e, m, Run('-', n) + NEWLINE) == m.(out := m.out + Bars(e.width) + NEWLINE)
    ensures LineStart(m.(out := m.out + Bars(e.width) + NEWLINE))
  {
    assert LineStart(m.(out := m.out + Bars(e.width) + NEWLINE));
    assert NEWLINE == ['\n'];
    hide *;
    LineStartIs(m);
    DashesRead(e, m, n);
    RuleDrawn(e, m, n);
    OneByte(e, WithDashes(m, n), '\n');
    FeedJoins(e, m, Run('-', n), NEWLINE);
  }

  lemma {:induction false} DashesThen(e: Env, m: Md, n: nat, c: Byte)
    requires LineStart(m) && n >= 1 && c != '\\' && !('0' <= c <= '9') && c != '-'
    requires (n == 1 ==> c != ' ') && (n >= 3 ==> c != '\n')
    ensures AfterDollar(e, WithDashes(m, n), c) == AfterDollar(e, AfterText(m, Run('-', n)), c)
  {
    RunGrows('-', n);
    hide AfterDash, Sane, Open, NoMarks, Times, Run, Rule;
    assert DashPart(e, WithDashes(m, n), c) == On(AfterText(m, Run('-', n)));
  }

  /** Dashes that make neither a bullet nor a rule are text. */
  lemma {:induction false} DashesAreText(e: Env, m: Md, n: nat, rest: Text)
    requires LineStart(m) && !e.color && n >= 1 && PlainIn(m, rest) && rest != []
    requires (n == 1 ==> rest[0] != ' ') && (n >= 3 ==> rest[0] != '\n')
    ensures var k := Feed(e, m, Run('-', n) + rest);
            && Quiet(k) && k.out == m.out + Run('-', n) + rest
            && k.style == m.style.(header := k.style.header) && k.head.sol == SolAfter(true, rest)
  {
    LineMarkFree(m, rest);
    DashesThen(e, m, n, rest[0]);
    WithDashesIsCalm(m, n);
    assert WithDashes(m, n).head.sol && WithDashes(m, n).style == m.style;
    hide *;
    LineStartIs(m);
    DashesRead(e, m, n);
    RestOfText(e, m, Run('-', n), WithDashes(m, n), Run('-', n), rest);
  }

  // ----- headers

  function WithHashes(m: Md, n: nat): Md {
    m.(marks := m.marks.(hashes := n))
  }

  lemma {:induction false} WithHashesIs(m: Md, n: nat)
    requires LineStart(m)
    ensures Sane(WithHashes(m, n)) && Open(WithHashes(m, n)) && WithHashes(m, 0) == m
  {
  }

  lemma {:induction false} HashRead(e: Env, m: Md, n: nat)
    requires LineStart(m)
    ensures Sane(WithHashes(m, n)) && Consume(e, WithHashes(m, n), '#') == WithHashes(m, n + 1)
  {
    WithHashesIs(m, n);
    OpenReachesCode(e, WithHashes(m, n), '#');
    hide Sane, Open, Examine, AfterDollar, DollarPart, ResolveStars, ResolveTildes;
    assert ResolveTildes(e, WithHashes(m, n)) == WithHashes(m, n) by {
      NoTildes(e, WithHashes(m, n));
    }
    assert AfterCode(e, WithHashes(m, n), '#') == Done(WithHashes(m, n + 1));
    ConsumedAtOnce(e, WithHashes(m, n), '#');
  }

  lemma {:induction false} NoTildes(e: Env, m: Md)
    requires m.marks.tildes == 0
    ensures ResolveTildes(e, m) == m
  {
  }

  lemma {:induction false} HashesRead(e: Env, m: Md, n: nat)
    requires LineStart(m)
    ensures Sane(m) && Feed(e, m, Run('#', n)) == WithHashes(m, n)
  {
    hide *;
    LineStartIs(m);
    RunGrows('#', 0);
    if n == 0 {
      NothingFed(e, m);
      WithHashesIs(m, 0);
    } else {
      HashesRead(e, m, n - 1);
      HashRead(e, m, n - 1);
      RunGrows('#', n - 1);
      FeedJoins(e, m, Run('#', n - 1), ['#']);
      OneByte(e, WithHashes(m, n - 1), '#');
    }
  }

  /** In a header that has just opened. */
  function InHeader(m: Md): Md {
    m.(style := m.style.(header := true), head := m.head.(sol := false))
  }

  /** The escape sequence of a header of that level. */
  function HeaderCode(n: nat): seq<Octet> {
    "\U{1B}[1;3" + (if n == 1 then "5" else if n == 2 then "6" else "4") + "m"
  }

  /** Hashes and a space open a header; in colour its level is seen by its colour. */
  lemma {:induction false} HeaderOpens(e: Env, m: Md, n: nat)
    requires LineStart(m) && n >= 1
    ensures Sane(m)
    ensures Feed(e, m, Run('#', n) + SPACE)
            == InHeader(m).(out := m.out + if e.color then HeaderCode(n) else [])
  {
    assert SPACE == [' '];
    WithHashesIs(m, n);
    OpenReachesCode(e, WithHashes(m, n), ' ');
    NoTildes(e, WithHashes(m, n));
    HeaderStyled(e, WithHashes(m, n), n);
    var h := InHeader(m).(out := m.out + if e.color then HeaderCode(n) else []);
    hide Sane, Open, Examine, AfterDollar, DollarPart, ResolveStars, ResolveTildes, HeaderStyle, HeaderCode, Run;
    assert AfterCode(e, WithHashes(m, n), ' ') == Done(h);
    ConsumedAtOnce(e, WithHashes(m, n), ' ');
    hide *;
    LineStartIs(m);
    HashesRead(e, m, n);
    OneByte(e, WithHashes(m, n), ' ');
    FeedJoins(e, m, Run('#', n), SPACE);
  }

  lemma {:induction false} HeaderStyled(e: Env, m: Md, n: nat)
    requires n >= 1
    ensures HeaderStyle(e, m, n).out == m.out + if e.color then HeaderCode(n) else []
  {
  }

  /** A header: the hashes go, the title is shown, and the header is on until its newline. */
  lemma {:induction false} HeaderLine(e: Env, m: Md, n: nat, title: Text)
    requires LineStart(m) && n >= 1 && !e.color && '\n' !in title && PlainText(m.style.math, false, title)
    ensures Sane(m) && Feed(e, m, Run('#', n) + SPACE + title).style.header
    ensures var k := Feed(e, m, Run('#', n) + SPACE + title + NEWLINE);
            && LineStart(k) && k.out == m.out + title + NEWLINE && k.style == m.style.(header := false)
  {
    hide *;
    var h := InHeader(m);
    HeaderIs(m, title);
    PlainThenNewline(h, title);
    LineStartIs(m);
    HeaderOpens(e, m, n);
    PlainIsVerbatim(e, h, title);
    PlainIsVerbatim(e, h, title + NEWLINE);
    FeedJoins(e, m, Run('#', n) + SPACE, title);
    FeedJoins(e, m, Run('#', n) + SPACE, title + NEWLINE);
    assert Run('#', n) + SPACE + title + NEWLINE == Run('#', n) + SPACE + (title + NEWLINE);
    var k := Feed(e, m, Run('#', n) + SPACE + title + NEWLINE);
    assert m.out + (title + NEWLINE) == m.out + title + NEWLINE;
    EndsLine(title);
    LineStartOf(k);
  }

  lemma {:induction false} HeaderIs(m: Md, title: Text)
    requires LineStart(m) && PlainText(m.style.math, false, title)
    ensures var h := InHeader(m);
            && h.style == m.style.(header := true) && h.out == m.out && !h.head.sol && h.(out := m.out + []) == h
            && Quiet(h) && Sane(h) && PlainIn(h, title)
  {
    assert m.out + [] == m.out;
  }

  lemma {:induction false} LineStartOf(m: Md)
    requires Quiet(m) && m.head.sol
    ensures LineStart(m)
  {
  }

  lemma {:induction false} EndsLine(title: Text)
    ensures SolAfter(false, title + NEWLINE) && '\n' in title + NEWLINE
  {
    assert (title + NEWLINE)[|title|] == '\n';
  }

  lemma {:induction false} PlainThenNewline(m: Md, text: Text)
    requires PlainIn(m, text)
    ensures PlainIn(m, text + NEWLINE)
  {
    hide Inert, SolAfter;
    var t := text + NEWLINE;
    forall k | 0 <= k < |t|
      ensures t[k] == '\n' || Inert(m.style.math, SolAfter(m.head.sol, t[..k]), t[k])
    {
      if k < |text| {
        assert t[..k] == text[..k] && t[k] == text[k];
      }
    }
  }

  lemma {:induction false} HashesThen(e: Env, m: Md, n: nat, c: Byte)
    requires LineStart(m) && n >= 1 && c != '*' && c != '~' && c != '#' && c != ' '
    ensures AfterCode(e, WithHashes(m, n), c) == AfterCode(e, AfterText(m, Run('#', n)), c)
  {
    RunGrows('#', n);
    var k, r := WithHashes(m, n), AfterText(m, Run('#', n));
    NoTildes(e, k);
    NoTildes(e, r);
    hide Sane, Open, AfterDollar, DollarPart, ResolveStars, ResolveTildes, Times, Run;
    assert FlushHashes(k) == r;
    assert FlushHashes(r) == r by {
      NothingToResolve(e, r);
    }
    assert HashPart(e, k, c) == On(r) && HashPart(e, r, c) == On(r);
  }

  /** Hashes without a space behind them are text. */
  lemma {:induction false} HashesAreText(e: Env, m: Md, n: nat, rest: Text)
    requires LineStart(m) && !e.color && n >= 1 && PlainIn(m, rest) && rest != [] && rest[0] != ' '
    ensures var k := Feed(e, m, Run('#', n) + rest);
            && Quiet(k) && k.out == m.out + Run('#', n) + rest
            && k.style == m.style.(header := k.style.header) && k.head.sol == SolAfter(true, rest)
  {
    var r := AfterText(m, Run('#', n));
    LineMarkFree(m, rest);
    HashesThen(e, m, n, rest[0]);
    WithHashesIs(m, n);
    AfterTextIs(m, Run('#', n));
    LineStartIs(r);
    assert PlainIn(r, rest) && PlainIn(WithHashes(m, n), rest) && r.out == m.out + Run('#', n) && r.style == m.style;
    assert WithHashes(m, n).style == m.style && WithHashes(m, n).head == m.head && r.head == m.head && m.head.sol;
    hide *;
    LineStartIs(m);
    HashesRead(e, m, n);
    SameAfterMarks(e, WithHashes(m, n), r, rest);
    PlainIsVerbatim(e, r, rest);
    FeedJoins(e, m, Run('#', n), rest);
  }

  // ----- quotes

  function WithGt(m: Md): Md {
    m.(head := m.head.(gt := true))
  }

  lemma {:induction false} WithGtIsCalm(m: Md)
    requires LineStart(m)
    ensures Calm(WithGt(m)) && Sane(WithGt(m)) && Calm(m) && !m.head.gt
  {
  }

  const GT: Text := ">"
  const QUOTE_BAR: seq<Octet> := Utf8.Encode(0x258E) + " "

  lemma {:induction false} GtRead(e: Env, m: Md)
    requires LineStart(m)
    ensures Sane(m) && Feed(e, m, GT) == WithGt(m)
  {
    WithGtIsCalm(m);
    LineStartIs(m);
    assert GT == ['>'];
    assert m.head.dashes == 0 && m.head.digits == [];
    hide Calm, Sane, Open, NoMarks, Quiet, LinkPart, LastPart;
    assert AfterDollar(e, m, '>') == Done(WithGt(m));
    TakenAtDollar(e, m, '>');
    OneByte(e, m, '>');
  }

  lemma {:induction false} QuoteShown(e: Env, m: Md)
    requires LineStart(m) && !e.color
    ensures Sane(WithGt(m)) && Consume(e, WithGt(m), ' ') == InItem(m, QUOTE_BAR)
  {
    WithGtIsCalm(m);
    assert m.head.dashes == 0 && m.head.digits == [];
    hide Calm, Sane, Open, NoMarks, Quiet, LinkPart, LastPart, Utf8.Encode;
    assert AfterDollar(e, WithGt(m), ' ') == Done(InItem(m, QUOTE_BAR));
    TakenAtDollar(e, WithGt(m), ' ');
  }

  /** The quote mark, a space and text: a bar, a space and the text. */
  lemma {:induction false} QuotedLine(e: Env, m: Md, rest: Text)
    requires LineStart(m) && !e.color && PlainText(m.style.math, false, rest)
    ensures var n := Feed(e, m, "> " + rest);
            && Quiet(n) && n.out == m.out + QUOTE_BAR + rest
            && n.style == m.style.(header := n.style.header) && n.head.sol == SolAfter(false, rest)
  {
    assert GT + [' '] == "> ";
    hide *;
    LineStartIs(m);
    GtRead(e, m);
    QuoteShown(e, m);
    OneByte(e, WithGt(m), ' ');
    FeedJoins(e, m, GT, [' ']);
    RestOfItem(e, m, "> ", QUOTE_BAR, rest);
  }

  lemma {:induction false} GtThen(e: Env, m: Md, c: Byte)
    requires LineStart(m) && c != '\\' && !('0' <= c <= '9') && c != '-' && c != '>' && c != ' '
    ensures AfterDollar(e, WithGt(m), c) == AfterDollar(e, AfterText(m, GT), c)
  {
    hide LinkPart, LastPart, Sane, Open, NoMarks;
    var r := AfterText(m, GT);
    assert QuotePart(e, WithGt(m), c) == On(r) && QuotePart(e, r, c) == On(r);
  }

  /** The quote mark without a space behind it is text. */
  lemma {:induction false} GtIsText(e: Env, m: Md, rest: Text)
    requires LineStart(m) && !e.color && PlainIn(m, rest) && rest != [] && rest[0] != ' '
    ensures var n := Feed(e, m, GT + rest);
            && Quiet(n) && n.out == m.out + GT + rest
            && n.style == m.style.(header := n.style.header) && n.head.sol == SolAfter(true, rest)
  {
    LineMarkFree(m, rest);
    GtThen(e, m, rest[0]);
    WithGtIsCalm(m);
    assert WithGt(m).head.sol && WithGt(m).style == m.style;
    hide *;
    LineStartIs(m);
    GtRead(e, m);
    RestOfText(e, m, GT, WithGt(m), GT, rest);
  }
}
