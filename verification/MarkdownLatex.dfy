/** LaTeX commands in a text, with and without arguments in braces. */
module MarkdownLatex {
  import opened Options
  import opened CText
  import opened Markdown
  import opened MarkdownRun
  import opened MarkdownFence
  import opened MarkdownText

  const BACKSLASH: Text := "\\"

  // ----- the name of a command

  /** The letters of ASCII. */
  predicate IsLetter(c: char) {
    0x41 <= c as int <= 0x5A || 0x61 <= c as int <= 0x7A
  }

  lemma {:induction false} LettersAreAlpha(c: char)
    ensures IsLetter(c) <==> IsAlpha(c)
  {
  }

  predicate Letters(name: Text) {
    forall k :: 0 <= k < |name| ==> IsLetter(name[k])
  }

  /** What the buffer keeps of a name, and of an argument. */
  function KeptName(name: Text): Text {
    if |name| <= 62 then name else name[..62]
  }

  function KeptArg(arg: Text): Text {
    if |arg| <= 510 then arg else arg[..510]
  }

  /** The name read so far. */
  function Reading(m: Md, name: Text): Md {
    m.(tex := m.tex.(inLatex := true, latex := KeptName(name)))
  }

  lemma {:induction false} ReadingIsSane(m: Md, name: Text)
    requires Quiet(m)
    ensures Sane(m) && Sane(Reading(m, name)) && m.tex.brace == NoBrace
  {
  }

  lemma {:induction false} BackslashOpens(e: Env, m: Md)
    requires Quiet(m)
    ensures Sane(m) && Consume(e, m, '\\') == Reading(m, [])
  {
    QuietIs(m);
    BackslashReached(e, m);
    hide *;
    OpenReachesCode(e, m, '\\');
    ConsumedAtOnce(e, m, '\\');
  }

  lemma {:induction false} BackslashReached(e: Env, m: Md)
    requires Quiet(m)
    ensures AfterCode(e, m, '\\') == Done(Reading(m, []))
  {
    hide Sane, ResolveStars, ResolveTildes, Ansi, FlushHashes, DigitPart;
    assert FlushHashes(m) == m && ResolveTildes(e, m) == m by {
      NothingPending(e, m);
    }
    assert AfterDollar(e, m, '\\') == Done(Reading(m, []));
    assert AfterCode(e, m, '\\') == AfterDollar(e, m, '\\');
  }

  lemma {:induction false} NothingPending(e: Env, m: Md)
    requires NoMarks(m)
    ensures FlushHashes(m) == m && ResolveTildes(e, m) == m
  {
  }

  lemma {:induction false} LetterRead(e: Env, m: Md, name: Text, c: Byte)
    requires Quiet(m) && IsAlpha(c)
    ensures Sane(Reading(m, name)) && Consume(e, Reading(m, name), c) == Reading(m, name + [c])
  {
    ReadingIsSane(m, name);
    var r := Reading(m, name);
    hide AfterLatex, Sane, Quiet, EscapePart, ResolveLatex;
    KeptGrows(name, c);
    assert LatexPart(e, r, c) == Done(Reading(m, name + [c]));
    assert Examine(e, r, c) == LatexPart(e, r, c);
  }

  lemma {:induction false} KeptGrows(name: Text, c: Byte)
    ensures KeptName(name + [c]) == if |KeptName(name)| < LATEX_MAX then KeptName(name) + [c] else KeptName(name)
  {
    if |name| >= LATEX_MAX {
      assert (name + [c])[..LATEX_MAX] == name[..LATEX_MAX];
    }
  }

  lemma {:induction false} NameRead(e: Env, m: Md, name: Text)
    requires Quiet(m) && Letters(name)
    ensures Sane(m) && Feed(e, m, BACKSLASH + name) == Reading(m, name)
    decreases |name|
  {
    hide Quiet, Sane, Consume;
    ReadingIsSane(m, name);
    if name == [] {
      BackslashOpens(e, m);
      OneByte(e, m, '\\');
      assert BACKSLASH + name == ['\\'];
    } else {
      var k := |name| - 1;
      NameRead(e, m, name[..k]);
      LetterRead(e, m, name[..k], name[k]);
      assert BACKSLASH + name[..k] + [name[k]] == BACKSLASH + name && name[..k] + [name[k]] == name;
      FeedJoins(e, m, BACKSLASH + name[..k], [name[k]]);
      OneByte(e, Reading(m, name[..k]), name[k]);
    }
  }

  // ----- a command without arguments

  /** After a command that is shown as text. */
  function Named(m: Md, shown: Text): Md {
    m.(out := m.out + shown, tex := m.tex.(inLatex := false, latex := []))
  }

  lemma {:induction false} NamedIsQuiet(m: Md, shown: Text)
    requires Quiet(m)
    ensures Quiet(Named(m, shown)) && Sane(Named(m, shown))
  {
  }

  /** The byte after a name meets the state that the command leaves behind. */
  lemma {:induction false} CommandShows(e: Env, m: Md, name: Text, c: Byte)
    requires Quiet(m) && name != [] && !IsAlpha(c) && e.braceOf(KeptName(name)) == NoBrace
    ensures var k, n := Reading(m, name), Named(m, CommandText(e, KeptName(name)));
            Sane(k) && Sane(n) && Consume(e, k, c) == Consume(e, n, c)
  {
    var k, n := Reading(m, name), Named(m, CommandText(e, KeptName(name)));
    ReadingIsSane(m, name);
    NamedIsQuiet(m, CommandText(e, KeptName(name)));
    assert KeptName(name) != [];
    hide Sane, Quiet, AfterLatex, CommandText, KeptName, EscapePart;
    assert ResolveLatex(e, k) == n;
    assert LatexPart(e, k, c) == On(n) && LatexPart(e, n, c) == On(n);
    assert Examine(e, k, c) == AfterLatex(e, n, c) == Examine(e, n, c);
    hide *;
    SameConsume(e, k, n, c);
  }

  /** A command without arguments shows its symbol, or itself where it has none, before plain text that no
      letter begins. */
  lemma {:induction false} CommandThenText(e: Env, m: Md, name: Text, rest: Text)
    requires Quiet(m) && !e.color && name != [] && Letters(name) && e.braceOf(KeptName(name)) == NoBrace
    requires PlainIn(m, rest) && rest != [] && !IsAlpha(rest[0])
    ensures var n := Feed(e, m, BACKSLASH + name + rest);
            && Quiet(n) && n.out == m.out + CommandText(e, KeptName(name)) + rest
            && n.style == m.style.(header := n.style.header)
  {
    var n := Named(m, CommandText(e, KeptName(name)));
    assert PlainIn(n, rest) && n.out == m.out + CommandText(e, KeptName(name)) && n.style == m.style;
    hide *;
    QuietIs(m);
    NamedIsQuiet(m, CommandText(e, KeptName(name)));
    NameRead(e, m, name);
    CommandShows(e, m, name, rest[0]);
    SameFirstByte(e, Reading(m, name), n, rest);
    FeedJoins(e, m, BACKSLASH + name, rest);
    PlainIsVerbatim(e, n, rest);
  }

  // ----- a command with arguments

  predicate Spaces(gap: Text) {
    forall k :: 0 <= k < |gap| ==> IsSpace(gap[k])
  }

  /** The braces that a text leaves open. */
  function Level(t: Text): int {
    if t == [] then 0
    else Level(t[..|t| - 1]) + (if t[|t| - 1] == '{' then 1 else if t[|t| - 1] == '}' then -1 else 0)
  }

  /** No brace is closed that was not opened, at any point of the text. */
  predicate NeverBelow(t: Text) {
    forall k :: 0 <= k <= |t| ==> Level(t[..k]) >= 0
  }

  predicate Balanced(t: Text) {
    NeverBelow(t) && Level(t) == 0
  }

  /** The command waits for its argument number w. */
  function Waiting(m: Md, name: Text, b: Brace, w: nat, first: Text): Md {
    m.(tex := m.tex.(inLatex := false, latex := KeptName(name), brace := b, which := w,
                     ba1 := first, ba2 := [], depth := 0, wait := true))
  }

  /** Inside its argument number w, with this much of it read. */
  function Inside(m: Md, name: Text, b: Brace, w: nat, first: Text, arg: Text): Md {
    m.(tex := m.tex.(inLatex := false, latex := KeptName(name), brace := b, which := w,
                     ba1 := if w == 1 then KeptArg(arg) else first, ba2 := if w == 1 then [] else KeptArg(arg),
                     depth := 1 + Level(arg), wait := false))
  }

  predicate Arguments(b: Brace, w: nat, first: Text) {
    b != NoBrace && 1 <= w <= Argc(b) && |first| <= ARG_MAX && (w == 1 ==> first == [])
  }

  lemma {:induction false} WaitingIsSane(m: Md, name: Text, b: Brace, w: nat, first: Text)
    requires Quiet(m) && Arguments(b, w, first)
    ensures Sane(m) && Sane(Waiting(m, name, b, w, first))
  {
  }

  lemma {:induction false} InsideIsSane(m: Md, name: Text, b: Brace, w: nat, first: Text, arg: Text)
    requires Quiet(m) && Arguments(b, w, first) && Level(arg) >= 0
    ensures Sane(m) && Sane(Inside(m, name, b, w, first, arg))
  {
    hide Level;
  }

  /** The byte after the name of a command with arguments is looked at again by the waiting command. */
  lemma {:induction false} CommandWaits(e: Env, m: Md, name: Text, c: Byte)
    requires Quiet(m) && name != [] && !IsAlpha(c) && e.braceOf(KeptName(name)) != NoBrace
    ensures var k, w := Reading(m, name), Waiting(m, name, e.braceOf(KeptName(name)), 1, []);
            Sane(k) && Sane(w) && Consume(e, k, c) == Consume(e, w, c)
  {
    var b := e.braceOf(KeptName(name));
    var k, w := Reading(m, name), Waiting(m, name, b, 1, []);
    ReadingIsSane(m, name);
    WaitingIsSane(m, name, b, 1, []);
    assert KeptName(name) != [];
    hide Sane, Quiet, AfterLatex, CommandText, KeptName, EscapePart;
    assert ResolveLatex(e, k) == w;
    assert LatexPart(e, k, c) == Again(w);
    assert Examine(e, k, c) == Again(w);
    hide *;
    WaitsAgain(e, k, w, c);
  }

  lemma {:induction false} WaitsAgain(e: Env, k: Md, w: Md, c: Byte)
    requires Sane(k) && Sane(w) && w.tex.brace != NoBrace && Examine(e, k, c) == Again(w)
    ensures Consume(e, k, c) == Consume(e, w, c)
  {
    WaitingTakesByte(e, w, c);
    hide Sane, Examine;
  }

  lemma {:induction false} SpaceWaits(e: Env, w: Md, c: Byte)
    requires Sane(w) && w.tex.brace != NoBrace && w.tex.wait && IsSpace(c)
    ensures Consume(e, w, c) == w
  {
    hide Sane, AfterBrace;
  }

  lemma {:induction false} SpacesWait(e: Env, w: Md, gap: Text)
    requires Sane(w) && w.tex.brace != NoBrace && w.tex.wait && Spaces(gap)
    ensures Feed(e, w, gap) == w
    decreases |gap|
  {
    hide Sane, Consume;
    if gap == [] {
      NothingFed(e, w);
    } else {
      var k := |gap| - 1;
      SpacesWait(e, w, gap[..k]);
      SpaceWaits(e, w, gap[k]);
      FeedMore(e, w, gap, k);
      assert gap[..k + 1] == gap;
    }
  }

  lemma {:induction false} BraceOpens(e: Env, m: Md, name: Text, b: Brace, w: nat, first: Text)
    requires Quiet(m) && Arguments(b, w, first)
    ensures var k := Waiting(m, name, b, w, first);
            Sane(k) && Consume(e, k, '{') == Inside(m, name, b, w, first, [])
  {
    WaitingIsSane(m, name, b, w, first);
    hide Sane, Quiet, AfterBrace, KeptName;
  }

  lemma {:induction false} LevelMore(arg: Text, c: Byte)
    ensures Level(arg + [c]) == Level(arg) + (if c == '{' then 1 else if c == '}' then -1 else 0)
  {
    assert (arg + [c])[..|arg|] == arg;
  }

  lemma {:induction false} ArgGrows(arg: Text, c: Byte)
    ensures KeptArg(arg + [c]) == if |KeptArg(arg)| < ARG_MAX then KeptArg(arg) + [c] else KeptArg(arg)
  {
    if |arg| >= ARG_MAX {
      assert (arg + [c])[..ARG_MAX] == arg[..ARG_MAX];
    }
  }

  lemma {:induction false} ArgByte(e: Env, m: Md, name: Text, b: Brace, w: nat, first: Text, arg: Text, c: Byte)
    requires Quiet(m) && Arguments(b, w, first) && Level(arg) >= 0 && Level(arg + [c]) >= 0
    ensures var k := Inside(m, name, b, w, first, arg);
            Sane(k) && Consume(e, k, c) == Inside(m, name, b, w, first, arg + [c])
  {
    hide *;
    var k := Inside(m, name, b, w, first, arg);
    InsideIsSane(m, name, b, w, first, arg);
    ArgPart(e, m, name, b, w, first, arg, c);
    BraceTakes(e, k, c);
    ConsumedAtOnce(e, k, c);
  }

  lemma {:induction false} BraceTakes(e: Env, m: Md, c: Byte)
    requires BracePart(e, m, c).Done?
    ensures Examine(e, m, c) == BracePart(e, m, c)
  {
    hide BracePart, AfterBrace;
  }

  lemma {:induction false} ArgPart(e: Env, m: Md, name: Text, b: Brace, w: nat, first: Text, arg: Text, c: Byte)
    requires Arguments(b, w, first) && Level(arg) >= 0 && Level(arg + [c]) >= 0
    ensures BracePart(e, Inside(m, name, b, w, first, arg), c) == Done(Inside(m, name, b, w, first, arg + [c]))
  {
    assert b != NoBrace;
    hide KeptName, KeptArg, Level, Arguments, BraceClosed, Collected;
    LevelMore(arg, c);
    ArgCollected(m, name, b, w, first, arg, c);
  }

  lemma {:induction false} ArgCollected(m: Md, name: Text, b: Brace, w: nat, first: Text, arg: Text, c: Byte)
    requires Arguments(b, w, first) && Level(arg + [c]) >= 0
    ensures Collected(Inside(m, name, b, w, first, arg).tex.(depth := 1 + Level(arg + [c])), c)
            == Inside(m, name, b, w, first, arg + [c]).tex
  {
    assert 1 <= w <= 2;
    hide Level, KeptArg, KeptName, Arguments;
    ArgGrows(arg, c);
  }

  lemma {:induction false} ArgRead(e: Env, m: Md, name: Text, b: Brace, w: nat, first: Text, arg: Text)
    requires Quiet(m) && Arguments(b, w, first) && NeverBelow(arg)
    ensures var k := Inside(m, name, b, w, first, []);
            Sane(k) && Feed(e, k, arg) == Inside(m, name, b, w, first, arg)
    decreases |arg|
  {
    InsideIsSane(m, name, b, w, first, []);
    hide Sane, Quiet, Consume, Level, Inside, Arguments;
    var i := Inside(m, name, b, w, first, []);
    if arg == [] {
      NothingFed(e, i);
    } else {
      var k := |arg| - 1;
      assert arg[..k] + [arg[k]] == arg && arg[..|arg|] == arg && arg[..k + 1] == arg;
      assert Level(arg[..k]) >= 0 && Level(arg) >= 0;
      forall j | 0 <= j <= k ensures arg[..k][..j] == arg[..j] {
      }
      ArgRead(e, m, name, b, w, first, arg[..k]);
      ArgByte(e, m, name, b, w, first, arg[..k], arg[k]);
      FeedMore(e, i, arg, k);
    }
  }

  /** After a command that has shown what it makes of its arguments. */
  function Resulted(m: Md, name: Text, shown: Text): Md {
    m.(out := m.out + shown, tex := Tex(KeptName(name), false, NoBrace, [], [], 0, 0, false))
  }

  lemma {:induction false} ResultedIsQuiet(m: Md, name: Text, shown: Text)
    requires Quiet(m)
    ensures Quiet(Resulted(m, name, shown)) && Sane(Resulted(m, name, shown))
  {
  }

  lemma {:induction false} BraceCloses(e: Env, m: Md, name: Text, b: Brace, w: nat, first: Text, arg: Text)
    requires Quiet(m) && Arguments(b, w, first) && Level(arg) == 0
    ensures var k := Inside(m, name, b, w, first, arg);
            Sane(k) && Consume(e, k, '}') ==
              if w < Argc(b) then Waiting(m, name, b, 2, KeptArg(arg))
              else Resulted(m, name, e.result(KeptName(name), k.tex.ba1, k.tex.ba2))
  {
    InsideIsSane(m, name, b, w, first, arg);
    hide Sane, Quiet, AfterBrace, KeptName, KeptArg, Level;
  }

  /** One argument with the space before it. */
  lemma {:induction false} ArgumentRead(e: Env, m: Md, name: Text, b: Brace, w: nat, first: Text, gap: Text, arg: Text)
    requires Quiet(m) && Arguments(b, w, first) && Spaces(gap) && Balanced(arg)
    ensures var k := Waiting(m, name, b, w, first);
            Sane(k) && Feed(e, k, gap + "{" + arg + "}") ==
              if w < Argc(b) then Waiting(m, name, b, 2, KeptArg(arg))
              else Resulted(m, name, e.result(KeptName(name), if w == 1 then KeptArg(arg) else first,
                                              if w == 1 then [] else KeptArg(arg)))
  {
    var k := Waiting(m, name, b, w, first);
    assert k.tex.brace != NoBrace && k.tex.wait;
    var i := Inside(m, name, b, w, first, arg);
    assert i.tex.ba1 == if w == 1 then KeptArg(arg) else first;
    assert i.tex.ba2 == if w == 1 then [] else KeptArg(arg);
    assert Level(arg) == 0 && NeverBelow(arg);
    hide *;
    WaitingIsSane(m, name, b, w, first);
    SpacesWait(e, k, gap);
    BraceOpens(e, m, name, b, w, first);
    OneByte(e, k, '{');
    ArgRead(e, m, name, b, w, first, arg);
    BraceCloses(e, m, name, b, w, first, arg);
    OneByte(e, i, '}');
    FeedJoins(e, k, gap, "{");
    FeedJoins(e, k, gap + "{", arg);
    FeedJoins(e, k, gap + "{" + arg, "}");
  }

  function Braced(gap: Text, arg: Text): Text {
    gap + "{" + arg + "}"
  }

  lemma {:induction false} FirstOfBraced(gap: Text, arg: Text)
    requires Spaces(gap)
    ensures Braced(gap, arg) != [] && !IsAlpha(Braced(gap, arg)[0])
  {
    assert Braced(gap, arg)[0] == if gap == [] then '{' else gap[0];
  }

  /** What follows the name of a command with arguments meets the waiting command. */
  lemma {:induction false} NameThenWait(e: Env, m: Md, name: Text, more: Text)
    requires Quiet(m) && name != [] && Letters(name) && e.braceOf(KeptName(name)) != NoBrace
    requires more != [] && !IsAlpha(more[0])
    ensures var w := Waiting(m, name, e.braceOf(KeptName(name)), 1, []);
            Sane(m) && Sane(w) && Feed(e, m, BACKSLASH + name + more) == Feed(e, w, more)
  {
    hide *;
    QuietIs(m);
    NameRead(e, m, name);
    CommandWaits(e, m, name, more[0]);
    SameFirstByte(e, Reading(m, name), Waiting(m, name, e.braceOf(KeptName(name)), 1, []), more);
    FeedJoins(e, m, BACKSLASH + name, more);
  }

  /** The name of a command with arguments and its first argument. */
  lemma {:induction false} FirstArgument(e: Env, m: Md, name: Text, gap: Text, arg: Text)
    requires Quiet(m) && name != [] && Letters(name) && Spaces(gap) && Balanced(arg)
    requires e.braceOf(KeptName(name)) != NoBrace
    ensures Sane(m) && Feed(e, m, BACKSLASH + name + Braced(gap, arg)) ==
              if e.braceOf(KeptName(name)) == TwoArgs then Waiting(m, name, TwoArgs, 2, KeptArg(arg))
              else Resulted(m, name, e.result(KeptName(name), KeptArg(arg), []))
  {
    var b := e.braceOf(KeptName(name));
    assert Arguments(b, 1, []) && (1 < Argc(b) <==> b == TwoArgs);
    assert Braced(gap, arg) == gap + "{" + arg + "}";
    hide *;
    QuietIs(m);
    FirstOfBraced(gap, arg);
    NameThenWait(e, m, name, Braced(gap, arg));
    ArgumentRead(e, m, name, b, 1, [], gap, arg);
  }

  /** A command of one argument shows what it makes of it; the argument may hold marks, commands and balanced
      braces, and is cut at 510 bytes. */
  lemma {:induction false} OneArgument(e: Env, m: Md, name: Text, gap: Text, arg: Text, rest: Text)
    requires Quiet(m) && !e.color && name != [] && Letters(name) && Spaces(gap) && Balanced(arg) && PlainIn(m, rest)
    requires e.braceOf(KeptName(name)).OneArg?
    ensures var n := Feed(e, m, BACKSLASH + name + Braced(gap, arg) + rest);
            && Quiet(n) && n.out == m.out + e.result(KeptName(name), KeptArg(arg), []) + rest
            && n.style == m.style.(header := n.style.header)
  {
    var shown := e.result(KeptName(name), KeptArg(arg), []);
    var r := Resulted(m, name, shown);
    assert PlainIn(r, rest) && r.style == m.style && r.out == m.out + shown;
    hide *;
    QuietIs(m);
    ResultedIsQuiet(m, name, shown);
    FirstArgument(e, m, name, gap, arg);
    FeedJoins(e, m, BACKSLASH + name + Braced(gap, arg), rest);
    PlainIsVerbatim(e, r, rest);
  }

  /** A command of two arguments shows what it makes of both. */
  lemma {:induction false} TwoArguments(e: Env, m: Md, name: Text, gap: Text, arg: Text, gap2: Text, arg2: Text,
                                        rest: Text)
    requires Quiet(m) && !e.color && name != [] && Letters(name) && PlainIn(m, rest)
    requires Spaces(gap) && Balanced(arg) && Spaces(gap2) && Balanced(arg2)
    requires e.braceOf(KeptName(name)).TwoArgs?
    ensures var n := Feed(e, m, BACKSLASH + name + Braced(gap, arg) + Braced(gap2, arg2) + rest);
            && Quiet(n) && n.out == m.out + e.result(KeptName(name), KeptArg(arg), KeptArg(arg2)) + rest
            && n.style == m.style.(header := n.style.header)
  {
    var shown := e.result(KeptName(name), KeptArg(arg), KeptArg(arg2));
    var r := Resulted(m, name, shown);
    assert PlainIn(r, rest) && r.style == m.style && r.out == m.out + shown;
    assert Arguments(TwoArgs, 2, KeptArg(arg)) && Argc(TwoArgs) == 2;
    assert Braced(gap2, arg2) == gap2 + "{" + arg2 + "}";
    hide *;
    QuietIs(m);
    ResultedIsQuiet(m, name, shown);
    FirstArgument(e, m, name, gap, arg);
    ArgumentRead(e, m, name, TwoArgs, 2, KeptArg(arg), gap2, arg2);
    FeedJoins(e, m, BACKSLASH + name + Braced(gap, arg), Braced(gap2, arg2));
    FeedJoins(e, m, BACKSLASH + name + Braced(gap, arg) + Braced(gap2, arg2), rest);
    PlainIsVerbatim(e, r, rest);
  }

  // ----- a command whose argument does not come

  lemma {:induction false} WaitEnds(e: Env, m: Md, name: Text, b: Brace, w: nat, first: Text, c: Byte)
    requires Quiet(m) && Arguments(b, w, first) && c != '{' && !IsSpace(c)
    ensures var k, n := Waiting(m, name, b, w, first), GivenUp(e, m, name, w, first);
            Sane(k) && Sane(n) && Quiet(n) && Consume(e, k, c) == Consume(e, n, c)
  {
    var k, n := Waiting(m, name, b, w, first), GivenUp(e, m, name, w, first);
    WaitingIsSane(m, name, b, w, first);
    assert Quiet(n) && Sane(n);
    hide Sane, Quiet, AfterLatex, KeptName, CommandText;
    assert BracePart(e, k, c) == On(n) && LatexPart(e, n, c) == On(n);
    assert Examine(e, k, c) == AfterLatex(e, n, c) == Examine(e, n, c);
    hide *;
    SameConsume(e, k, n, c);
  }

  /** The command as text, and its arguments so far gone. */
  function GivenUp(e: Env, m: Md, name: Text, w: nat, first: Text): Md {
    m.(out := m.out + CommandText(e, KeptName(name)),
       tex := m.tex.(inLatex := false, latex := [], brace := NoBrace, which := w,
                     ba1 := first, ba2 := [], depth := 0, wait := true))
  }

  /** Where no brace follows, the command is shown as text, and the space after it is lost. */
  lemma {:induction false} ArgumentMissing(e: Env, m: Md, name: Text, gap: Text, rest: Text)
    requires Quiet(m) && !e.color && name != [] && Letters(name) && Spaces(gap) && e.braceOf(KeptName(name)) != NoBrace
    requires PlainIn(m, rest) && rest != [] && rest[0] != '{' && !IsSpace(rest[0])
    requires gap == [] ==> !IsAlpha(rest[0])
    ensures var n := Feed(e, m, BACKSLASH + name + gap + rest);
            && Quiet(n) && n.out == m.out + CommandText(e, KeptName(name)) + rest
            && n.style == m.style.(header := n.style.header)
  {
    var b := e.braceOf(KeptName(name));
    var w, n := Waiting(m, name, b, 1, []), GivenUp(e, m, name, 1, []);
    assert Arguments(b, 1, []) && w.tex.brace != NoBrace && w.tex.wait;
    assert PlainIn(n, rest) && n.style == m.style && n.out == m.out + CommandText(e, KeptName(name));
    var all := gap + rest;
    assert all[0] == if gap == [] then rest[0] else gap[0];
    assert !IsAlpha(all[0]);
    hide *;
    QuietIs(m);
    NameThenWait(e, m, name, all);
    SpacesWait(e, w, gap);
    WaitEnds(e, m, name, b, 1, [], rest[0]);
    SameFirstByte(e, w, n, rest);
    FeedJoins(e, w, gap, rest);
    assert BACKSLASH + name + gap + rest == BACKSLASH + name + all;
    PlainIsVerbatim(e, n, rest);
  }
}
