/** What a reader of the terminal gets to see of Markdown, in colour and without. */
module MarkdownShown {
  import opened Options
  import opened CText
  import opened Markdown
  import opened MarkdownRun
  import opened MarkdownFence
  import opened MarkdownText
  import opened MarkdownSpans
  import opened MarkdownLatex
  import opened MarkdownColour

  /** From m to n these bytes have been written, with escape sequences in between where there is colour;
      p is the same terminal without colour. */
  ghost predicate Shows(e: Env, p: Env, m: Md, n: Md, bytes: seq<Octet>) {
    Coloured(m.out, m.out + bytes, n.out) && (p == e ==> n.out == m.out + bytes)
  }

  lemma {:induction false} PlainTerminal(e: Env)
    ensures Plainly(e, e.(color := false))
    ensures !e.color ==> e.(color := false) == e
  {
    hide Coloured;
    forall x, y, z ensures Coloured([], e.result(x, y, z), e.result(x, y, z)) {
      ColouredNothing([]);
      ColouredShows([], [], [], e.result(x, y, z));
      assert [] + e.result(x, y, z) == e.result(x, y, z);
    }
  }

  /** What holds without colour of the bytes shown holds with colour. */
  lemma {:induction false} InColour(e: Env, p: Env, m: Md, text: Text, bytes: seq<Octet>)
    requires Plainly(e, p) && Sane(m) && Feed(p, m, text).out == m.out + bytes
    ensures Shows(e, p, m, Feed(e, m, text), bytes)
    ensures var n, k := Feed(e, m, text), Feed(p, m, text); n.style == k.style && n.head == k.head && n.side == k.side
    ensures Quiet(Feed(e, m, text)) <==> Quiet(Feed(p, m, text))
  {
    hide Plainly, Coloured, Sane, Feed;
    ColourOnlyAdds(e, p, m, text);
    SameButOut(Feed(e, m, text), Feed(p, m, text));
  }

  lemma {:induction false} SameButOut(m: Md, n: Md)
    requires n == m.(out := n.out)
    ensures Quiet(m) <==> Quiet(n)
    ensures InFence(m) <==> InFence(n)
  {
  }

  lemma {:induction false} NoColour(e: Env, p: Env)
    requires Plainly(e, p)
    ensures !p.color && p.braceOf == e.braceOf && p.symbol == e.symbol && p.width == e.width
  {
    hide Coloured;
  }

  /** Text free of marks. */
  lemma {:induction false} PlainShown(e: Env, p: Env, m: Md, text: Text)
    requires Plainly(e, p) && Quiet(m) && PlainIn(m, text)
    ensures var n := Feed(e, m, text);
            && Quiet(n) && Shows(e, p, m, n, text)
            && n.style == m.style.(header := n.style.header) && n.head.sol == SolAfter(m.head.sol, text)
  {
    hide *;
    QuietIs(m);
    NoColour(e, p);
    PlainIsVerbatim(p, m, text);
    InColour(e, p, m, text, text);
  }

  /** A run of stars before text. */
  lemma {:induction false} StarsSwitchText(e: Env, p: Env, m: Md, s: nat, text: Text)
    requires Plainly(e, p) && Quiet(m) && PlainIn(m, text) && text != []
    ensures var n := Feed(e, m, Run('*', s) + text); var (b, i) := Starred(m.style.bold, m.style.italic, s);
            && Quiet(n) && Shows(e, p, m, n, StarsLeft(s) + text)
            && n.style == m.style.(bold := b, italic := i, header := n.style.header)
            && n.head.sol == SolAfter(m.head.sol, text)
  {
    hide *;
    QuietIs(m);
    NoColour(e, p);
    StarsThenText(p, m, s, text);
    assert m.out + StarsLeft(s) + text == m.out + (StarsLeft(s) + text);
    InColour(e, p, m, Run('*', s) + text, StarsLeft(s) + text);
  }

  /** Text between two runs of stars: the stars go, but for those of each run beyond three, the text stays,
      and bold and italic are as before exactly when the runs are below three or the two were alike. */
  lemma {:induction false} EmphasisShown(e: Env, p: Env, m: Md, s: nat, inner: Text, rest: Text)
    requires Plainly(e, p) && Quiet(m) && inner != [] && rest != []
    requires PlainIn(m, inner) && PlainText(m.style.math, SolAfter(m.head.sol, inner), rest)
    ensures var n := Feed(e, m, Run('*', s) + inner + Run('*', s) + rest);
            && Quiet(n) && Shows(e, p, m, n, StarsLeft(s) + inner + StarsLeft(s) + rest)
            && (n.style == m.style.(header := n.style.header) <==> s < 3 || m.style.bold == m.style.italic)
  {
    hide *;
    QuietIs(m);
    NoColour(e, p);
    StarsThenText(p, m, s, inner);
    var k := Feed(p, m, Run('*', s) + inner);
    QuietIs(k);
    SamePlain(m, k, inner, rest);
    StarsThenText(p, k, s, rest);
    StarredTwice(m.style.bold, m.style.italic, s);
    FeedJoins(p, m, Run('*', s) + inner, Run('*', s) + rest);
    var text, bytes := Run('*', s) + inner + Run('*', s) + rest, StarsLeft(s) + inner + StarsLeft(s) + rest;
    assert text == Run('*', s) + inner + (Run('*', s) + rest);
    assert m.out + StarsLeft(s) + inner + StarsLeft(s) + rest == m.out + bytes;
    InColour(e, p, m, text, bytes);
  }

  lemma {:induction false} StarredTwice(b: bool, i: bool, s: nat)
    ensures var (c, j) := Starred(b, i, s); Starred(c, j, s) == (b, i) <==> s < 3 || b == i
  {
  }

  lemma {:induction false} SamePlain(m: Md, k: Md, inner: Text, rest: Text)
    requires k.style.math == m.style.math && k.head.sol == SolAfter(m.head.sol, inner)
    requires PlainText(m.style.math, SolAfter(m.head.sol, inner), rest)
    ensures PlainIn(k, rest)
  {
  }

  /** Text between two runs of tildes: of each run those beyond two are shown, or the one it has; strike is on
      for the text where there are two or more, and as before after it. */
  lemma {:induction false} StrikeShown(e: Env, p: Env, m: Md, t: nat, inner: Text, rest: Text)
    requires Plainly(e, p) && Quiet(m) && inner != [] && rest != []
    requires PlainIn(m, inner) && PlainText(m.style.math, SolAfter(m.head.sol, inner), rest)
    ensures Feed(e, m, Run('~', t) + inner).style.strike == (m.style.strike != (t >= 2))
    ensures var n := Feed(e, m, Run('~', t) + inner + Run('~', t) + rest);
            && Quiet(n) && Shows(e, p, m, n, TildesLeft(t) + inner + TildesLeft(t) + rest)
            && n.style == m.style.(header := n.style.header)
  {
    hide *;
    QuietIs(m);
    NoColour(e, p);
    TildesThenText(p, m, t, inner);
    var k := Feed(p, m, Run('~', t) + inner);
    assert m.out + TildesLeft(t) + inner == m.out + (TildesLeft(t) + inner);
    InColour(e, p, m, Run('~', t) + inner, TildesLeft(t) + inner);
    QuietIs(k);
    SamePlain(m, k, inner, rest);
    TildesThenText(p, k, t, rest);
    FeedJoins(p, m, Run('~', t) + inner, Run('~', t) + rest);
    var text, bytes := Run('~', t) + inner + Run('~', t) + rest, TildesLeft(t) + inner + TildesLeft(t) + rest;
    assert text == Run('~', t) + inner + (Run('~', t) + rest);
    assert m.out + TildesLeft(t) + inner + TildesLeft(t) + rest == m.out + bytes;
    InColour(e, p, m, text, bytes);
  }

  /** Inline code: whatever marks it holds, it is shown byte for byte, and its ticks are not. */
  lemma {:induction false} CodeShown(e: Env, p: Env, m: Md, t: nat, code: Text, u: nat, rest: Text)
    requires Plainly(e, p) && Quiet(m) && 1 <= t <= 2 && 1 <= u <= 2 && code != [] && '`' !in code
    requires m.style.math ==> code[0] != '^' && code[0] != '_'
    requires rest != [] && PlainText(m.style.math, SolAfter(m.head.sol, code), rest)
    ensures var n := Feed(e, m, Run('`', t) + code + Run('`', u) + rest);
            && Quiet(n) && Shows(e, p, m, n, code + rest) && n.style == m.style.(header := n.style.header)
  {
    hide *;
    QuietIs(m);
    NoColour(e, p);
    CodeIsVerbatim(p, m, t, code, u, rest);
    assert m.out + code + rest == m.out + (code + rest);
    InColour(e, p, m, Run('`', t) + code + Run('`', u) + rest, code + rest);
  }

  /** The line that opens a fence shows the first 30 bytes of its tag. */
  lemma {:induction false} FenceOpenShown(e: Env, p: Env, m: Md, tag: Text)
    requires Plainly(e, p) && Quiet(m) && TagText(m, tag)
    ensures var n := Feed(e, m, TICKS + tag + NEWLINE);
            && InFence(n) && Shows(e, p, m, n, Tag(tag) + NEWLINE)
            && n.style == m.style.(fence := true) && n.side.lang == Tag(tag)
  {
    hide *;
    QuietIs(m);
    NoColour(e, p);
    FenceOpens(p, m, tag);
    assert m.out + Tag(tag) + NEWLINE == m.out + (Tag(tag) + NEWLINE);
    InColour(e, p, m, TICKS + tag + NEWLINE, Tag(tag) + NEWLINE);
    ColourOnlyAdds(e, p, m, TICKS + tag + NEWLINE);
    SameButOut(Feed(e, m, TICKS + tag + NEWLINE), Feed(p, m, TICKS + tag + NEWLINE));
  }

  /** A whole fenced block shows its tag, its body byte for byte, and one newline after each. */
  lemma {:induction false} FenceShown(e: Env, p: Env, m: Md, tag: Text, body: Text)
    requires Plainly(e, p) && Quiet(m) && TagText(m, tag) && NoClose(0, body) && Trail(body) == 0
    ensures var n := Feed(e, m, TICKS + tag + NEWLINE + body + TICKS + NEWLINE);
            && Quiet(n) && Shows(e, p, m, n, Tag(tag) + NEWLINE + body + NEWLINE)
            && n.style == m.style.(header := false) && n.head.sol
  {
    hide *;
    QuietIs(m);
    NoColour(e, p);
    WholeFence(p, m, tag, body);
    var bytes := Tag(tag) + NEWLINE + body + NEWLINE;
    assert m.out + Tag(tag) + NEWLINE + body + NEWLINE == m.out + bytes;
    InColour(e, p, m, TICKS + tag + NEWLINE + body + TICKS + NEWLINE, bytes);
  }

  /** The end of a block inside a fence shows the ticks held back too. */
  lemma {:induction false} FenceEndShown(e: Env, p: Env, m: Md, text: Text)
    requires Plainly(e, p) && InFence(m) && NoClose(m.marks.ticks, text)
    ensures Shows(e, p, m, Ended(e, Feed(e, m, text)), Times('`', m.marks.ticks) + text + Held(m.head))
  {
    hide *;
    FenceIs(m);
    NoColour(e, p);
    EndShowsTheRest(p, m, text);
    ColourOnlyAdds(e, p, m, text);
    var ticks := Times('`', m.marks.ticks);
    assert m.out + ticks + text + Held(m.head) == m.out + (ticks + text + Held(m.head));
    ShowsIs(e, p, m, Ended(e, Feed(e, m, text)), ticks + text + Held(m.head), Ended(p, Feed(p, m, text)).out);
  }

  lemma {:induction false} FenceIs(m: Md)
    requires InFence(m)
    ensures Sane(m) && Shown(m) == m.out + Times('`', m.marks.ticks)
  {
  }

  lemma {:induction false} ShowsIs(e: Env, p: Env, m: Md, n: Md, bytes: seq<Octet>, plain: seq<Octet>)
    requires Coloured(m.out, plain, n.out) && (p == e ==> n.out == plain) && plain == m.out + bytes
    ensures Shows(e, p, m, n, bytes)
  {
    hide Coloured;
  }

  /** The symbol of a command, or the command itself. */
  predicate StandsFor(e: Env, name: Text, shown: Text) {
    e.symbol(name) == Some(shown) || (e.symbol(name) == None && shown == BACKSLASH + name)
  }

  lemma {:induction false} CommandTextIs(e: Env, name: Text, shown: Text)
    requires StandsFor(e, name, shown)
    ensures CommandText(e, name) == shown
  {
  }

  /** A command without arguments shows its symbol, or itself. */
  lemma {:induction false} CommandShown(e: Env, p: Env, m: Md, name: Text, shown: Text, rest: Text)
    requires Plainly(e, p) && Quiet(m) && name != [] && Letters(name) && e.braceOf(KeptName(name)) == NoBrace
    requires StandsFor(e, KeptName(name), shown) && PlainIn(m, rest) && rest != [] && !IsLetter(rest[0])
    ensures var n := Feed(e, m, BACKSLASH + name + rest);
            && Quiet(n) && Shows(e, p, m, n, shown + rest) && n.style == m.style.(header := n.style.header)
  {
    hide *;
    SameEnv(e, p, KeptName(name));
    CommandTextIs(e, KeptName(name), shown);
    QuietIs(m);
    NoColour(e, p);
    LettersAreAlpha(rest[0]);
    CommandThenText(p, m, name, rest);
    assert m.out + shown + rest == m.out + (shown + rest);
    InColour(e, p, m, BACKSLASH + name + rest, shown + rest);
  }

  /** A command of one argument, with any space before it. */
  lemma {:induction false} ArgumentShown(e: Env, p: Env, m: Md, name: Text, gap: Text, arg: Text, rest: Text)
    requires Plainly(e, p) && Quiet(m) && name != [] && Letters(name) && Spaces(gap) && Balanced(arg)
    requires e.braceOf(KeptName(name)).OneArg? && PlainIn(m, rest)
    ensures var n := Feed(e, m, BACKSLASH + name + Braced(gap, arg) + rest);
            && Quiet(n) && Shows(e, p, m, n, p.result(KeptName(name), KeptArg(arg), []) + rest)
            && n.style == m.style.(header := n.style.header)
  {
    hide *;
    QuietIs(m);
    NoColour(e, p);
    OneArgument(p, m, name, gap, arg, rest);
    var shown := p.result(KeptName(name), KeptArg(arg), []);
    assert m.out + shown + rest == m.out + (shown + rest);
    InColour(e, p, m, BACKSLASH + name + Braced(gap, arg) + rest, shown + rest);
  }

  /** A command of two arguments. */
  lemma {:induction false} ArgumentsShown(e: Env, p: Env, m: Md, name: Text, gap: Text, arg: Text, gap2: Text,
                                          arg2: Text, rest: Text)
    requires Plainly(e, p) && Quiet(m) && name != [] && Letters(name) && PlainIn(m, rest)
    requires Spaces(gap) && Balanced(arg) && Spaces(gap2) && Balanced(arg2)
    requires e.braceOf(KeptName(name)).TwoArgs?
    ensures var n := Feed(e, m, BACKSLASH + name + Braced(gap, arg) + Braced(gap2, arg2) + rest);
            && Quiet(n) && Shows(e, p, m, n, p.result(KeptName(name), KeptArg(arg), KeptArg(arg2)) + rest)
            && n.style == m.style.(header := n.style.header)
  {
    hide *;
    QuietIs(m);
    NoColour(e, p);
    TwoArguments(p, m, name, gap, arg, gap2, arg2, rest);
    var shown := p.result(KeptName(name), KeptArg(arg), KeptArg(arg2));
    assert m.out + shown + rest == m.out + (shown + rest);
    InColour(e, p, m, BACKSLASH + name + Braced(gap, arg) + Braced(gap2, arg2) + rest, shown + rest);
  }

  /** A command whose argument does not come is shown as text, and the space after it is lost. */
  lemma {:induction false} MissingArgumentShown(e: Env, p: Env, m: Md, name: Text, shown: Text, gap: Text, rest: Text)
    requires Plainly(e, p) && Quiet(m) && name != [] && Letters(name) && Spaces(gap)
    requires StandsFor(e, KeptName(name), shown)
    requires e.braceOf(KeptName(name)) != NoBrace && PlainIn(m, rest) && rest != [] && rest[0] != '{'
    requires !IsSpace(rest[0]) && (gap == [] ==> !IsLetter(rest[0]))
    ensures var n := Feed(e, m, BACKSLASH + name + gap + rest);
            && Quiet(n) && Shows(e, p, m, n, shown + rest) && n.style == m.style.(header := n.style.header)
  {
    hide *;
    SameEnv(e, p, KeptName(name));
    CommandTextIs(e, KeptName(name), shown);
    QuietIs(m);
    NoColour(e, p);
    LettersAreAlpha(rest[0]);
    ArgumentMissing(p, m, name, gap, rest);
    assert m.out + shown + rest == m.out + (shown + rest);
    InColour(e, p, m, BACKSLASH + name + gap + rest, shown + rest);
  }
}
