/** What a terminal in colour shows of Markdown: which bytes, and in which attributes. */
module MarkdownScreen {
  import opened CText
  import opened Markdown
  import opened MarkdownRun
  import opened MarkdownFence
  import opened MarkdownText
  import opened MarkdownSpans
  import opened MarkdownLines
  import T = Terminal
  import Utf8

  const START := T.Screen([], T.NORMAL, T.Showing)

  /** What has become of the bytes written. */
  function Seen(m: Md): T.Screen {
    T.PutAll(START, m.out)
  }

  /** In colour, and in the middle of no escape sequence. */
  predicate Live(e: Env, m: Md) {
    e.color && Seen(m).mode.Showing?
  }

  /** From m to n, these bytes are shown in attributes a, and b is on in the end. */
  predicate Adds(m: Md, n: Md, bytes: seq<Octet>, a: T.Attr, b: T.Attr) {
    Seen(n) == T.Screen(Seen(m).cells + T.Painted(bytes, a), b, T.Showing)
  }

  function Look(m: Md): T.Attr {
    Seen(m).attr
  }

  // ----- what is written

  lemma {:induction false} SaySeen(m: Md, n: Md, bytes: seq<Octet>)
    requires Seen(m).mode.Showing? && T.ESC !in bytes && n.out == m.out + bytes
    ensures Adds(m, n, bytes, Look(m), Look(m)) && Seen(n).mode.Showing?
  {
    hide T.PutAll, T.Put, T.Painted;
    T.PutJoins(START, m.out, bytes);
    T.TextIsShown(Seen(m), bytes);
  }

  lemma {:induction false} SequenceSeen(m: Md, n: Md, code: Text)
    requires n.out == m.out + T.Sequence(code)
    ensures Seen(n) == T.PutAll(Seen(m), T.Sequence(code))
  {
    hide T.PutAll, T.Sequence;
    T.PutJoins(START, m.out, T.Sequence(code));
  }

  lemma {:induction false} AnsiWrites(e: Env, m: Md, code: Text)
    requires e.color
    ensures Ansi(e, m, code).out == m.out + T.Sequence(code) && Ansi(e, m, code).style == m.style
  {
    assert [T.ESC] + "[" == "\U{1B}[";
  }

  /** A sequence of one number. */
  lemma {:induction false} OneSeen(e: Env, m: Md, x: Text)
    requires Live(e, m) && AllDigits(x)
    ensures var n := Ansi(e, m, x);
            Live(e, n) && Seen(n) == Seen(m).(attr := T.Select(Look(m), T.Value(x))) && n.style == m.style
  {
    AnsiWrites(e, m, x);
    hide *;
    SequenceSeen(m, Ansi(e, m, x), x);
    LiveIs(e, m);
    T.OneNumber(Seen(m), x);
    LookIs(m);
    LiveIf(e, Ansi(e, m, x));
  }

  lemma {:induction false} LiveIs(e: Env, m: Md)
    requires Live(e, m)
    ensures e.color && Seen(m).mode.Showing?
  {
    hide T.PutAll;
  }

  lemma {:induction false} LiveIf(e: Env, m: Md)
    ensures e.color && Seen(m).mode.Showing? ==> Live(e, m)
  {
    hide T.PutAll;
  }

  lemma {:induction false} LookIs(m: Md)
    ensures Look(m) == Seen(m).attr
  {
    hide T.PutAll;
  }

  /** A sequence of two numbers. */
  lemma {:induction false} TwoSeen(e: Env, m: Md, x: Text, y: Text)
    requires Live(e, m) && AllDigits(x) && AllDigits(y)
    ensures var n := Ansi(e, m, x + T.SEMICOLON + y);
            && Live(e, n) && n.style == m.style
            && Seen(n) == Seen(m).(attr := T.Select(T.Select(Look(m), T.Value(x)), T.Value(y)))
  {
    var code := x + T.SEMICOLON + y;
    AnsiWrites(e, m, code);
    hide *;
    SequenceSeen(m, Ansi(e, m, code), code);
    LiveIs(e, m);
    T.TwoNumbers(Seen(m), x, y);
    LookIs(m);
    LiveIf(e, Ansi(e, m, code));
  }

  // ----- the sequences of the source

  /** Bold off is faint off as well. */
  function Bolded(a: T.Attr, on: bool): T.Attr {
    if on then a.(bold := true) else a.(bold := false, faint := false)
  }

  lemma {:induction false} BoldSeen(e: Env, m: Md, on: bool)
    requires Live(e, m)
    ensures var n := Ansi(e, m, if on then "1" else "22");
            Live(e, n) && Seen(n) == Seen(m).(attr := Bolded(Look(m), on)) && n.style == m.style
  {
    T.OneDigit('1');
    T.TwoDigits('2', '2');
    assert "1" == ['1'] && "22" == ['2', '2'];
    hide T.PutAll, T.Value, Ansi, AllDigits;
    OneSeen(e, m, if on then "1" else "22");
  }

  lemma {:induction false} ItalicSeen(e: Env, m: Md, on: bool)
    requires Live(e, m)
    ensures var n := Ansi(e, m, if on then "3" else "23");
            Live(e, n) && Seen(n) == Seen(m).(attr := Look(m).(italic := on)) && n.style == m.style
  {
    T.OneDigit('3');
    T.TwoDigits('2', '3');
    assert "3" == ['3'] && "23" == ['2', '3'];
    hide T.PutAll, T.Value, Ansi, AllDigits;
    OneSeen(e, m, if on then "3" else "23");
  }

  lemma {:induction false} BothSeen(e: Env, m: Md, on: bool)
    requires Live(e, m)
    ensures var n := Ansi(e, m, if on then "1;3" else "22;23");
            && Live(e, n) && Seen(n) == Seen(m).(attr := Bolded(Look(m), on).(italic := on)) && n.style == m.style
  {
    T.OneDigit('1');
    T.OneDigit('3');
    T.TwoDigits('2', '2');
    T.TwoDigits('2', '3');
    var x: Text, y: Text := if on then ['1'] else ['2', '2'], if on then ['3'] else ['2', '3'];
    assert (if on then "1;3" else "22;23") == x + T.SEMICOLON + y;
    hide T.PutAll, T.Value, Ansi, AllDigits, T.SEMICOLON;
    TwoSeen(e, m, x, y);
  }

  lemma {:induction false} StrikeSeen(e: Env, m: Md, on: bool)
    requires Live(e, m)
    ensures var n := Ansi(e, m, if on then "9" else "29");
            Live(e, n) && Seen(n) == Seen(m).(attr := Look(m).(strike := on)) && n.style == m.style
  {
    T.OneDigit('9');
    T.TwoDigits('2', '9');
    assert "9" == ['9'] && "29" == ['2', '9'];
    hide T.PutAll, T.Value, Ansi, AllDigits;
    OneSeen(e, m, if on then "9" else "29");
  }

  lemma {:induction false} ResetSeen(e: Env, m: Md)
    requires Live(e, m)
    ensures var n := Ansi(e, m, "0"); Live(e, n) && Seen(n) == Seen(m).(attr := T.NORMAL) && n.style == m.style
  {
    T.OneDigit('0');
    assert "0" == ['0'];
    hide T.PutAll, T.Value, Ansi, AllDigits;
    OneSeen(e, m, "0");
  }

  /** Colours: green for fences, yellow for math, cyan for code. */
  lemma {:induction false} ColourSeen(e: Env, m: Md, c: Byte)
    requires Live(e, m) && '0' <= c <= '7'
    ensures var n := Ansi(e, m, ['3', c]);
            && Live(e, n) && n.style == m.style
            && Seen(n) == Seen(m).(attr := Look(m).(colour := 30 + (c as int - '0' as int)))
  {
    T.TwoDigits('3', c);
    hide T.PutAll, T.Value, Ansi, AllDigits;
    OneSeen(e, m, ['3', c]);
  }

  // ----- stars

  /** What a run of s stars makes of the attributes. */
  function Starring(a: T.Attr, bold: bool, italic: bool, s: nat): T.Attr {
    if s >= 3 then Bolded(a, !(bold && italic)).(italic := !(bold && italic))
    else if s == 2 then Bolded(a, !bold)
    else if s == 1 then a.(italic := !italic)
    else a
  }

  lemma {:induction false} StarsWrite(e: Env, m: Md, s: nat)
    ensures var r := ResolveStars(e, WithStars(m, s)).out;
            && (s == 0 ==> r == m.out) && (s < 3 ==> StarsLeft(s) == [])
            && (s == 1 ==> r == Ansi(e, m, if !m.style.italic then "3" else "23").out)
            && (s == 2 ==> r == Ansi(e, m, if !m.style.bold then "1" else "22").out)
            && (s >= 3 ==> r == Ansi(e, m, if !(m.style.bold && m.style.italic) then "1;3" else "22;23").out
                                + StarsLeft(s))
  {
    var n := WithStars(m, 0);
    var code := StarCode(m, s);
    hide Ansi;
    assert ResolveStars(e, WithStars(m, s)).out
        == (if s == 0 then n.out else Ansi(e, n, code).out) + (if s >= 3 then Times('*', s - 3) else []);
    hide ResolveStars;
    AnsiOut(e, n, m, code);
    RunGrows('*', s);
  }

  function StarCode(m: Md, s: nat): Text {
    if s >= 3 then if !(m.style.bold && m.style.italic) then "1;3" else "22;23"
    else if s == 2 then if !m.style.bold then "1" else "22"
    else if !m.style.italic then "3" else "23"
  }

  lemma {:induction false} NothingAdded(m: Md, n: Md, k: T.Screen, a: T.Attr)
    requires Seen(n) == k && k == Seen(m).(attr := a) && k.mode.Showing?
    ensures Adds(m, n, [], a, a)
  {
    hide T.PutAll, T.Painted;
    T.PaintedJoins([], [], a);
    assert Seen(m).cells + [] == Seen(m).cells;
  }

  lemma {:induction false} SeenIs(m: Md, n: Md)
    requires m.out == n.out
    ensures Seen(m) == Seen(n)
  {
  }

  lemma {:induction false} AddsAfter(m: Md, k: Md, n: Md, bytes: seq<Octet>, a: T.Attr)
    requires Seen(k) == Seen(m).(attr := a) && Adds(k, n, bytes, a, a)
    ensures Adds(m, n, bytes, a, a)
  {
    hide T.PutAll, T.Painted;
  }

  lemma {:induction false} NoEscape(c: Byte, n: nat)
    requires c != T.ESC
    ensures T.ESC !in Run(c, n)
  {
  }

  lemma {:induction false} StarsSeen(e: Env, m: Md, s: nat)
    requires Live(e, m)
    ensures var r, b := ResolveStars(e, WithStars(m, s)), Starring(Look(m), m.style.bold, m.style.italic, s);
            Live(e, r) && Adds(m, r, StarsLeft(s), b, b) && Look(r) == b
  {
    var r, bold, italic := ResolveStars(e, WithStars(m, s)), m.style.bold, m.style.italic;
    assert Starring(Look(m), bold, italic, s)
        == if s >= 3 then Bolded(Look(m), !(bold && italic)).(italic := !(bold && italic))
           else if s == 2 then Bolded(Look(m), !bold) else if s == 1 then Look(m).(italic := !italic) else Look(m);
    hide *;
    LiveIs(e, m);
    LiveIf(e, r);
    LookIs(m);
    LookIs(r);
    StarsWrite(e, m, s);
    if s >= 3 {
      BothSeen(e, m, !(bold && italic));
      var k := Ansi(e, m, if !(bold && italic) then "1;3" else "22;23");
      LiveIs(e, k);
      LookIs(k);
      StarsHaveNoEscape(s);
      SaySeen(k, r, StarsLeft(s));
      AddsAfter(m, k, r, StarsLeft(s), Look(k));
      AddsIs(m, r, StarsLeft(s), Look(k), Look(k));
    } else if s == 2 {
      BoldSeen(e, m, !bold);
      SeenIs(Ansi(e, m, if !bold then "1" else "22"), r);
      NothingAdded(m, r, Seen(r), Bolded(Look(m), !bold));
    } else if s == 1 {
      ItalicSeen(e, m, !italic);
      SeenIs(Ansi(e, m, if !italic then "3" else "23"), r);
      NothingAdded(m, r, Seen(r), Look(m).(italic := !italic));
    } else {
      SeenIs(m, r);
      NothingAdded(m, r, Seen(r), Look(m));
    }
  }

  lemma {:induction false} AddsIs(m: Md, n: Md, bytes: seq<Octet>, a: T.Attr, b: T.Attr)
    requires Adds(m, n, bytes, a, b)
    ensures Seen(n).mode.Showing? && Seen(n).attr == b
  {
    hide T.PutAll, T.Painted;
  }

  lemma {:induction false} StarsHaveNoEscape(s: nat)
    ensures T.ESC !in StarsLeft(s)
  {
    NoEscape('*', s);
  }

  // ----- tildes

  lemma {:induction false} TildesWrite(e: Env, m: Md, t: nat)
    ensures ResolveTildes(e, WithTildes(m, t)).out
            == (if t >= 2 then Ansi(e, m, if !m.style.strike then "9" else "29").out else m.out) + TildesLeft(t)
  {
    hide Ansi;
    assert Ansi(e, WithTildes(m, 0), "9").out == Ansi(e, m, "9").out by {
      AnsiOut(e, WithTildes(m, 0), m, "9");
    }
    assert Ansi(e, WithTildes(m, 0), "29").out == Ansi(e, m, "29").out by {
      AnsiOut(e, WithTildes(m, 0), m, "29");
    }
  }

  lemma {:induction false} AnsiOut(e: Env, m: Md, n: Md, code: Text)
    requires m.out == n.out
    ensures Ansi(e, m, code).out == Ansi(e, n, code).out
  {
  }

  lemma {:induction false} TildesHaveNoEscape(t: nat)
    ensures T.ESC !in TildesLeft(t)
  {
    NoEscape('~', t);
  }

  lemma {:induction false} TildesSeen(e: Env, m: Md, t: nat)
    requires Live(e, m)
    ensures var r := ResolveTildes(e, WithTildes(m, t));
            var b := Look(m).(strike := if t >= 2 then !m.style.strike else Look(m).strike);
            Live(e, r) && Adds(m, r, TildesLeft(t), b, b) && Look(r) == b
  {
    hide *;
    var r := ResolveTildes(e, WithTildes(m, t));
    LiveIs(e, m);
    LiveIf(e, r);
    LookIs(m);
    LookIs(r);
    TildesWrite(e, m, t);
    TildesHaveNoEscape(t);
    if t >= 2 {
      StrikeSeen(e, m, !m.style.strike);
      var k := Ansi(e, m, if !m.style.strike then "9" else "29");
      LiveIs(e, k);
      LookIs(k);
      SaySeen(k, r, TildesLeft(t));
      AddsAfter(m, k, r, TildesLeft(t), Look(k));
      AddsIs(m, r, TildesLeft(t), Look(k), Look(k));
    } else {
      SaySeen(m, r, TildesLeft(t));
      AddsIs(m, r, TildesLeft(t), Look(m), Look(m));
    }
  }

  // ----- text and its emphasis

  /** Words: text free of marks, of line ends and of escapes. */
  predicate Words(m: Md, text: Text) {
    PlainIn(m, text) && '\n' !in text && T.ESC !in text
  }

  lemma {:induction false} WordsSeen(e: Env, m: Md, text: Text)
    requires Live(e, m) && Quiet(m) && Words(m, text)
    ensures var n := Feed(e, m, text);
            && Sane(m) && Quiet(n) && Live(e, n) && Adds(m, n, text, Look(m), Look(m)) && Look(n) == Look(m)
            && n.style == m.style && n.head.sol == SolAfter(m.head.sol, text)
  {
    assert PlainIn(m, text) && '\n' !in text && T.ESC !in text;
    hide *;
    QuietIs(m);
    LiveIs(e, m);
    LookIs(m);
    PlainIsVerbatim(e, m, text);
    var n := Feed(e, m, text);
    SaySeen(m, n, text);
    AddsIs(m, n, text, Look(m), Look(m));
    LookIs(n);
    LiveIf(e, n);
    HeaderStays(m, n);
  }

  lemma {:induction false} HeaderStays(m: Md, n: Md)
    requires n.style == m.style.(header := n.style.header) && n.style.header == m.style.header
    ensures n.style == m.style
  {
  }

  lemma {:induction false} AddsBoth(m: Md, k: Md, n: Md, x: seq<Octet>, y: seq<Octet>, a: T.Attr)
    requires Adds(m, k, x, a, a) && Adds(k, n, y, a, a)
    ensures Adds(m, n, x + y, a, a)
  {
    hide T.PutAll, T.Painted;
    T.PaintedJoins(x, y, a);
    assert Seen(m).cells + T.Painted(x, a) + T.Painted(y, a) == Seen(m).cells + (T.Painted(x, a) + T.Painted(y, a));
  }

  /** The terminal shows bold, italic and strike as the renderer has them, and nothing faint. */
  predicate Agrees(m: Md) {
    var a := Look(m);
    a.bold == m.style.bold && a.italic == m.style.italic && a.strike == m.style.strike && !a.faint
  }

  /** Text after a run of stars is shown bold or italic or both, as the renderer counts it, and in no other way. */
  lemma {:induction false} EmphasisOnScreen(e: Env, m: Md, s: nat, text: Text)
    requires Live(e, m) && Quiet(m) && Agrees(m) && Words(m, text) && text != []
    ensures var n := Feed(e, m, Run('*', s) + text); var (bold, italic) := Starred(m.style.bold, m.style.italic, s);
            var b := Look(m).(bold := bold, italic := italic);
            && Quiet(n) && Live(e, n) && Adds(m, n, StarsLeft(s) + text, b, b)
            && n.style == m.style.(bold := bold, italic := italic) && Agrees(n)
  {
    var (bold, italic) := Starred(m.style.bold, m.style.italic, s);
    var r := ResolveStars(e, WithStars(m, s));
    assert Words(m, text) ==> PlainIn(m, text);
    StarringAgrees(m, s);
    hide *;
    StarsResolved(e, m, s, text);
    StarsSeen(e, m, s);
    SameWords(m, r, text);
    WordsSeen(e, r, text);
    AddsBoth(m, r, Feed(e, r, text), StarsLeft(s), text, Look(r));
    StillAgrees(m, Feed(e, r, text), Look(r));
  }

  lemma {:induction false} StarringAgrees(m: Md, s: nat)
    requires Agrees(m)
    ensures var (bold, italic) := Starred(m.style.bold, m.style.italic, s);
            Starring(Look(m), m.style.bold, m.style.italic, s) == Look(m).(bold := bold, italic := italic)
  {
    hide Look;
  }

  lemma {:induction false} SameWords(m: Md, r: Md, text: Text)
    requires Words(m, text) && PlainIn(r, text)
    ensures Words(r, text)
  {
  }

  lemma {:induction false} StillAgrees(m: Md, n: Md, a: T.Attr)
    requires Agrees(m) && Look(n) == a && a == Look(m).(bold := a.bold, italic := a.italic, strike := a.strike)
    requires n.style.bold == a.bold && n.style.italic == a.italic && n.style.strike == a.strike
    ensures Agrees(n)
  {
    hide Look;
  }

  /** Text after a run of tildes is struck out as the renderer counts it, and shown in no other way. */
  lemma {:induction false} StrikeOnScreen(e: Env, m: Md, t: nat, text: Text)
    requires Live(e, m) && Quiet(m) && Agrees(m) && Words(m, text) && text != []
    ensures var n := Feed(e, m, Run('~', t) + text); var b := Look(m).(strike := m.style.strike != (t >= 2));
            && Quiet(n) && Live(e, n) && Adds(m, n, TildesLeft(t) + text, b, b)
            && n.style == m.style.(strike := m.style.strike != (t >= 2)) && Agrees(n)
  {
    var r := ResolveTildes(e, WithTildes(m, t));
    assert Words(m, text) ==> PlainIn(m, text);
    AgreesIs(m);
    hide *;
    TildesResolved(e, m, t, text);
    TildesSeen(e, m, t);
    SameWords(m, r, text);
    WordsSeen(e, r, text);
    AddsBoth(m, r, Feed(e, r, text), TildesLeft(t), text, Look(r));
    StillAgrees(m, Feed(e, r, text), Look(r));
  }

  lemma {:induction false} AgreesIs(m: Md)
    requires Agrees(m)
    ensures var a := Look(m);
            a.bold == m.style.bold && a.italic == m.style.italic && a.strike == m.style.strike && !a.faint
  {
    hide Look;
  }

  // ----- attributes that a reset leaves

  /** Bold and italic alone, as they are put back after a reset. */
  function Plain(s: Style): T.Attr {
    T.NORMAL.(bold := s.bold, italic := s.italic)
  }

  lemma {:induction false} RestyleSeen(e: Env, m: Md)
    requires Live(e, m)
    ensures var n := Restyle(e, Ansi(e, m, "0"));
            && Live(e, n) && Seen(n) == Seen(m).(attr := Plain(m.style)) && n.style == m.style
  {
    var z := Ansi(e, m, "0");
    var k := if m.style.bold then Ansi(e, z, "1") else z;
    hide T.PutAll, Ansi;
    ResetSeen(e, m);
    if m.style.bold {
      BoldSeen(e, z, true);
    }
    if m.style.italic {
      ItalicSeen(e, k, true);
    }
  }

  /** A header of that level: bold, and magenta, cyan or blue. */
  function Titled(a: T.Attr, h: nat): T.Attr {
    a.(bold := true, colour := if h == 1 then 35 else if h == 2 then 36 else 34)
  }

  lemma {:induction false} HeaderSeen(e: Env, m: Md, h: nat)
    requires Live(e, m)
    ensures var n := HeaderStyle(e, m, h);
            Live(e, n) && Seen(n) == Seen(m).(attr := Titled(Look(m), h)) && n.style == m.style
  {
    TitleCode(h);
    hide *;
    TitledIs(Look(m), h);
    TwoSeen(e, m, ['1'], HeaderColour(h));
    HeaderStyleIs(e, m, h);
  }

  function HeaderColour(h: nat): Text {
    if h == 1 then ['3', '5'] else if h == 2 then ['3', '6'] else ['3', '4']
  }

  lemma {:induction false} HeaderStyleIs(e: Env, m: Md, h: nat)
    ensures HeaderStyle(e, m, h) == Ansi(e, m, ['1'] + T.SEMICOLON + HeaderColour(h))
  {
    hide Ansi;
    assert (if h == 1 then "1;35" else if h == 2 then "1;36" else "1;34") == ['1'] + T.SEMICOLON + HeaderColour(h);
  }

  lemma {:induction false} TitleCode(h: nat)
    ensures AllDigits(['1']) && T.Value(['1']) == 1 && AllDigits(HeaderColour(h))
    ensures T.Value(HeaderColour(h)) == if h == 1 then 35 else if h == 2 then 36 else 34
  {
    hide T.Value, AllDigits;
    T.OneDigit('1');
    T.TwoDigits('3', '5');
    T.TwoDigits('3', '6');
    T.TwoDigits('3', '4');
  }

  lemma {:induction false} TitledIs(a: T.Attr, h: nat)
    ensures T.Select(T.Select(a, 1), if h == 1 then 35 else if h == 2 then 36 else 34) == Titled(a, h)
  {
  }

  /** What inline code and math leave on: bold and italic, and in a header the style of the first level. */
  function Resumed(s: Style): T.Attr {
    if s.header then Titled(Plain(s), 1) else Plain(s)
  }

  lemma {:induction false} ResumedAgrees(m: Md, n: Md)
    requires Look(n) == Resumed(m.style) && n.style == m.style
    ensures Agrees(n) <==> !m.style.strike && (m.style.header ==> m.style.bold)
  {
    hide Look;
  }

  // ----- inline code

  lemma {:induction false} CuedSeen(e: Env, m: Md)
    requires Live(e, m)
    ensures var n := Cued(e, m); Live(e, n) && Seen(n) == Seen(m).(attr := Look(m).(colour := 36))
  {
    assert "36" == ['3', '6'];
    hide T.PutAll, Ansi;
    ColourSeen(e, m, '6');
  }

  lemma {:induction false} ClosedWrites(e: Env, m: Md)
    requires Quiet(m)
    ensures var z := Restyle(e, Ansi(e, m, "0"));
            Closed(e, m).out == if m.style.header then HeaderStyle(e, z, 1).out else z.out
  {
    assert m.marks.hashes == 0;
    hide Sane, Open, NoMarks, Quiet;
    var c := Coding(m);
    assert Restyle(e, Ansi(e, c, "0")).out == Restyle(e, Ansi(e, m, "0")).out;
    assert Closed(e, m).out == CodeOff(e, c).out;
  }

  lemma {:induction false} ClosedSeen(e: Env, m: Md)
    requires Live(e, m) && Quiet(m)
    ensures var n := Closed(e, m); Live(e, n) && Seen(n) == Seen(m).(attr := Resumed(m.style))
  {
    hide T.PutAll, Ansi, Restyle, HeaderStyle, Closed, Quiet, Titled, Plain;
    ClosedWrites(e, m);
    RestyleSeen(e, m);
    HeaderSeen(e, Restyle(e, Ansi(e, m, "0")), 1);
  }

  lemma {:induction false} CodeSeen(m: Md, o: Md, a: Md, code: Text, n: Md, rest: Text, r: Md)
    requires Seen(m).mode.Showing? && Seen(o) == Seen(m).(attr := Look(m).(colour := 36))
    requires Adds(o, a, code, Look(o), Look(o)) && Seen(n) == Seen(a).(attr := Look(n))
    requires Adds(n, r, rest, Look(n), Look(n))
    ensures Seen(r) == T.Screen(Seen(m).cells + T.Painted(code, Look(m).(colour := 36)) + T.Painted(rest, Look(n)),
                                Look(n), T.Showing)
  {
    hide T.PutAll, T.Painted;
  }

  /** Inline code is shown in cyan and otherwise as the text before it. The text after it is shown bold and italic
      as before, and struck out never; so the terminal agrees with the renderer again exactly when nothing was
      struck out and, in a header, bold was on. */
  lemma {:induction false} CodeOnScreen(e: Env, m: Md, t: nat, code: Text, u: nat, rest: Text)
    requires Live(e, m) && Quiet(m) && 1 <= t <= 2 && 1 <= u <= 2 && code != [] && '`' !in code
    requires m.style.math ==> code[0] != '^' && code[0] != '_'
    requires rest != [] && PlainText(m.style.math, SolAfter(m.head.sol, code), rest)
    requires T.ESC !in code && T.ESC !in rest && '\n' !in rest
    ensures var n := Feed(e, m, Run('`', t) + code + Run('`', u) + rest); var r := Resumed(m.style);
            && Quiet(n) && Live(e, n) && n.style == m.style
            && Seen(n) == T.Screen(Seen(m).cells + T.Painted(code, Look(m).(colour := 36)) + T.Painted(rest, r), r,
                                   T.Showing)
            && (Agrees(n) <==> !m.style.strike && (m.style.header ==> m.style.bold))
  {
    hide *;
    CodePassed(e, m, t, code, u, rest);
    var o := Cued(e, m);
    CuedIs(e, m);
    CuedSeen(e, m);
    LiveIs(e, m);
    LiveIs(e, o);
    LookIs(o);
    var a := After(o, code);
    AfterIs(o, code);
    AfterIsQuiet(o, code);
    SaySeen(o, a, code);
    LiveIf(e, a);
    var c := Closed(e, a);
    ClosedSeen(e, a);
    LookIs(c);
    WordsAre(c, rest);
    WordsSeen(e, c, rest);
    var n := Feed(e, c, rest);
    CodeSeen(m, o, a, code, c, rest, n);
    ResumedAgrees(m, n);
  }

  lemma {:induction false} WordsAre(m: Md, text: Text)
    requires PlainIn(m, text) && '\n' !in text && T.ESC !in text
    ensures Words(m, text)
  {
  }

  lemma {:induction false} LetterIsPlain(math: bool, sol: bool, c: Byte)
    requires 'a' <= c <= 'z'
    ensures PlainText(math, sol, [c]) && '\n' !in [c] && T.ESC !in [c] && '`' !in [c] && c != '^' && c != '_'
  {
    assert [c][..0] == [];
    assert c !in MARKS && c !in LINE_MARKS by {
      var marks, line := MARKS, LINE_MARKS;
      assert forall k :: 0 <= k < |marks| ==> marks[k] < 'a' || marks[k] > 'z';
      assert forall k :: 0 <= k < |line| ==> line[k] < 'a';
    }
  }

  lemma {:induction false} StartIsLive(e: Env)
    requires e.color
    ensures var m := Begin([]); Live(e, m) && Quiet(m) && Sane(m) && Agrees(m) && !m.style.strike && !m.style.math
  {
  }

  /** Struck out text, code, and struck out text again, without a mark in between: the renderer still strikes
      out, the terminal does not. */
  lemma {:induction false} StrikeIsLost(e: Env)
    requires e.color
    ensures Sane(Begin([]))
    ensures var m := Feed(e, Begin([]), Run('~', 2) + "a" + (Run('`', 1) + "b" + Run('`', 1) + "c"));
            m.style.strike && !Look(m).strike
  {
    hide *;
    var b := Begin([]);
    StartIsLive(e);
    assert "a" == ['a'] && "b" == ['b'] && "c" == ['c'];
    LetterIsPlain(b.style.math, b.head.sol, 'a');
    LastSol(b.head.sol, []);
    PlainAfter(b, b, [], "a");
    WordsAre(b, "a");
    StrikeOnScreen(e, b, 2, "a");
    var n := Feed(e, b, Run('~', 2) + "a");
    LetterIsPlain(n.style.math, SolAfter(n.head.sol, "b"), 'c');
    LetterIsPlain(n.style.math, n.head.sol, 'b');
    CodeOnScreen(e, n, 1, "b", 1, "c");
    FeedJoins(e, b, Run('~', 2) + "a", Run('`', 1) + "b" + Run('`', 1) + "c");
    var m := Feed(e, n, Run('`', 1) + "b" + Run('`', 1) + "c");
    LookIs(m);
    ResumedIsPlain(n.style);
  }

  lemma {:induction false} ResumedIsPlain(s: Style)
    ensures !Resumed(s).strike && !Resumed(s).faint
  {
  }

  // ----- headers

  /** A title is shown bold, and in magenta, cyan or blue by its level. */
  lemma {:induction false} TitleOnScreen(e: Env, m: Md, h: nat, title: Text)
    requires Live(e, m) && LineStart(m) && h >= 1 && PlainText(m.style.math, false, title)
    requires '\n' !in title && T.ESC !in title
    ensures var n := Feed(e, m, Run('#', h) + SPACE + title); var b := Titled(Look(m), h);
            && Sane(m) && Quiet(n) && Live(e, n) && Adds(m, n, title, b, b) && n.style == m.style.(header := true)
  {
    hide *;
    LineStartIs(m);
    HeaderOpens(e, m, h);
    var k := Feed(e, m, Run('#', h) + SPACE);
    LiveIs(e, m);
    LookIs(m);
    TitleStarts(e, m, h, title);
    SeenIs(HeaderStyle(e, m, h), k);
    HeaderSeen(e, m, h);
    LiveIs(e, HeaderStyle(e, m, h));
    LiveIf(e, k);
    LookIs(k);
    WordsAre(k, title);
    WordsSeen(e, k, title);
    FeedJoins(e, m, Run('#', h) + SPACE, title);
    AddsAfter(m, k, Feed(e, k, title), title, Look(k));
  }

  lemma {:induction false} TitleStarts(e: Env, m: Md, h: nat, title: Text)
    requires LineStart(m) && h >= 1 && e.color && PlainText(m.style.math, false, title)
    ensures var k := InHeader(m).(out := m.out + HeaderCode(h));
            && HeaderStyle(e, m, h).out == k.out && k.style == m.style.(header := true)
            && Quiet(k) && PlainIn(k, title)
  {
    HeaderStyled(e, m, h);
    hide HeaderStyle, HeaderCode;
  }

  /** The line end of a header resets all attributes, so that the terminal agrees exactly when nothing was bold,
      italic or struck out before; any other line end changes none. */
  lemma {:induction false} LineEndSeen(e: Env, m: Md)
    requires Live(e, m)
    ensures var t := LastPart(e, m, '\n'); var b := if m.style.header then T.NORMAL else Look(m);
            && t.Done? && Live(e, t.m) && Adds(m, t.m, "\n", Look(m), b)
            && (m.style.header ==> (Agrees(t.m) <==> !m.style.bold && !m.style.italic && !m.style.strike))
  {
    var n := Say(m, "\n");
    assert "\n" == ['\n'] && T.ESC !in "\n";
    hide T.PutAll, Ansi, T.Painted;
    SaySeen(m, n, "\n");
    if m.style.header {
      ResetSeen(e, n);
    }
  }

  // ----- math

  /** Math is shown in yellow; what comes after it is bold and italic as before and, after dollars in a header,
      in the style of the first level. */
  lemma {:induction false} DollarsSeen(e: Env, m: Md, c: Byte)
    requires Live(e, m) && m.marks.dollars >= 1 && c != '$'
    ensures var t := DollarPart(e, m, c);
            && t.On? && Live(e, t.m) && t.m.style.math == !m.style.math
            && Seen(t.m) == Seen(m).(attr := if m.style.math then Resumed(m.style) else Look(m).(colour := 33))
            && (m.style.math ==>
                  (Agrees(t.m) <==> !m.style.strike && (m.style.header ==> m.style.bold)))
  {
    var k := Restyle(e, Ansi(e, m, "0"));
    assert "33" == ['3', '3'];
    assert HeaderStyle(e, k, 1) == Ansi(e, k, "1;35");
    hide T.PutAll, Ansi, Restyle, HeaderStyle;
    if m.style.math {
      RestyleSeen(e, m);
      if m.style.header {
        HeaderSeen(e, k, 1);
      }
    } else {
      ColourSeen(e, m, '3');
    }
  }

  /** After a closing bracket with a backslash the style of a header does not come back. */
  lemma {:induction false} BracketsSeen(e: Env, m: Md)
    requires Live(e, m)
    ensures Live(e, MathOn(e, m)) && Live(e, MathOff(e, m))
    ensures Seen(MathOn(e, m)) == Seen(m).(attr := if m.style.math then Look(m) else Look(m).(colour := 33))
    ensures Seen(MathOff(e, m)) == Seen(m).(attr := if m.style.math then Plain(m.style) else Look(m))
  {
    assert "33" == ['3', '3'];
    hide T.PutAll, Ansi, Restyle, Plain;
    RestyleSeen(e, m);
    ColourSeen(e, m, '3');
  }

  // ----- fences

  /** A fence is shown in green, and its end resets all attributes. */
  lemma {:induction false} FenceSeen(e: Env, m: Md)
    requires Live(e, m) && m.marks.ticks >= 3
    ensures var n := ResolveTicks(e, m);
            && Live(e, n) && Seen(n) == Seen(m).(attr := if m.style.fence then T.NORMAL else Look(m).(colour := 32))
            && (m.style.fence ==> (Agrees(n) <==> !m.style.bold && !m.style.italic && !m.style.strike))
  {
    var k := m.(marks := m.marks.(ticks := 0));
    assert "32" == ['3', '2'];
    hide T.PutAll, Ansi;
    SeenIs(m, k);
    ResetSeen(e, k);
    ColourSeen(e, k, '2');
  }

  lemma {:induction false} FaintSeen(e: Env, m: Md)
    requires Live(e, m)
    ensures var n := Ansi(e, m, "2");
            Live(e, n) && Seen(n) == Seen(m).(attr := Look(m).(faint := true)) && n.style == m.style
  {
    T.OneDigit('2');
    assert "2" == ['2'];
    hide T.PutAll, T.Value, Ansi, AllDigits;
    OneSeen(e, m, "2");
  }

  lemma {:induction false} FaintItalicSeen(e: Env, m: Md)
    requires Live(e, m)
    ensures var n := Ansi(e, m, "2;3");
            Live(e, n) && Seen(n) == Seen(m).(attr := Look(m).(faint := true, italic := true)) && n.style == m.style
  {
    T.OneDigit('2');
    T.OneDigit('3');
    assert "2;3" == ['2'] + T.SEMICOLON + ['3'];
    hide T.PutAll, T.Value, Ansi, AllDigits, T.SEMICOLON;
    TwoSeen(e, m, ['2'], ['3']);
  }

  lemma {:induction false} FaintWhiteSeen(e: Env, m: Md)
    requires Live(e, m)
    ensures var n := Ansi(e, m, "2;37");
            Live(e, n) && Seen(n) == Seen(m).(attr := Look(m).(faint := true, colour := 37)) && n.style == m.style
  {
    T.OneDigit('2');
    T.TwoDigits('3', '7');
    assert "2;37" == ['2'] + T.SEMICOLON + ['3', '7'];
    hide T.PutAll, T.Value, Ansi, AllDigits, T.SEMICOLON;
    TwoSeen(e, m, ['2'], ['3', '7']);
  }

  lemma {:induction false} AddsThen(m: Md, n: Md, k: Md, bytes: seq<Octet>, a: T.Attr, b: T.Attr, c: T.Attr)
    requires Adds(m, n, bytes, a, b) && Seen(k) == Seen(n).(attr := c)
    ensures Adds(m, k, bytes, a, c)
  {
    hide T.PutAll, T.Painted;
  }

  /** The tag of a fence is shown faint and italic, and leaves nothing bold, faint or italic behind. */
  lemma {:induction false} TagSeen(e: Env, m: Md)
    requires Live(e, m) && m.side.lang != [] && T.ESC !in m.side.lang
    ensures var a, z := Ansi(e, m, "2;3"), Ansi(e, Say(Ansi(e, m, "2;3"), m.side.lang), "22;23");
            var b := Look(m).(bold := false, faint := false, italic := false);
            && Live(e, z) && Adds(m, z, m.side.lang, Look(m).(faint := true, italic := true), b)
            && (m.side.langCol ==> LangPart(e, m, '\n').m.out == z.out + "\n")
  {
    var a := Ansi(e, m, "2;3");
    var k := Say(a, m.side.lang);
    hide T.PutAll, Ansi, T.Painted;
    FaintItalicSeen(e, m);
    SaySeen(a, k, m.side.lang);
    AddsAfter(m, a, k, m.side.lang, Look(a));
    BothSeen(e, k, false);
    AddsThen(m, k, Ansi(e, k, "22;23"), m.side.lang, Look(a), Look(a), Bolded(Look(a), false).(italic := false));
  }

  // ----- rules, quotes and links

  lemma {:induction false} RepeatsHaveNoEscape(bytes: seq<Octet>, n: nat)
    requires T.ESC !in bytes
    ensures T.ESC !in Repeat(bytes, n)
  {
    if n > 0 {
      RepeatsHaveNoEscape(bytes, n - 1);
    }
  }

  lemma {:induction false} BarsHaveNoEscape(width: nat)
    ensures T.ESC !in Bars(width) && T.ESC !in Utf8.Encode(0x258E) + " "
  {
    assert T.ESC !in Utf8.Encode(0x2500);
    RepeatsHaveNoEscape(Utf8.Encode(0x2500), if width < 72 then width else 72);
  }

  /** A rule is shown faint and resets all attributes. */
  lemma {:induction false} RuleSeen(e: Env, m: Md)
    requires Live(e, m)
    ensures var n := Rule(e, m);
            && Live(e, n) && Look(n) == T.NORMAL
            && Seen(n).cells == Seen(m).cells + T.Painted(Bars(e.width), Look(m).(faint := true))
                                + T.Painted("\n", T.NORMAL)
            && (Agrees(n) <==> !m.style.bold && !m.style.italic && !m.style.strike)
  {
    var a := Ansi(e, m, "2");
    var k := Say(a, Bars(e.width));
    var z := Ansi(e, k, "0");
    assert Rule(e, m) == Say(z, "\n");
    assert "\n" == ['\n'] && T.ESC !in "\n";
    BarsHaveNoEscape(e.width);
    hide T.PutAll, Ansi, T.Painted, Bars, Rule, Utf8.Encode, T.ESC;
    FaintSeen(e, m);
    SaySeen(a, k, Bars(e.width));
    ResetSeen(e, k);
    SaySeen(z, Say(z, "\n"), "\n");
  }

  /** The bar of a quote is shown faint and white; the text after it is bold and italic as before, yellow in math,
      and struck out never. */
  lemma {:induction false} QuoteSeen(e: Env, m: Md)
    requires Live(e, m) && m.head.gt
    ensures var t := QuotePart(e, m, ' '); var bar: seq<Octet> := Utf8.Encode(0x258E) + " ";
            var b := if m.style.math then Plain(m.style).(colour := 33) else Plain(m.style);
            && t.Done? && Live(e, t.m) && Adds(m, t.m, bar, Look(m).(faint := true, colour := 37), b)
            && (Agrees(t.m) <==> !m.style.strike)
  {
    var bar: seq<Octet> := Utf8.Encode(0x258E) + " ";
    var a := Ansi(e, m, "2;37");
    var k := Say(a, bar);
    var z := Restyle(e, Ansi(e, k, "0"));
    var y := if m.style.math then Ansi(e, z, "33") else z;
    assert QuotePart(e, m, ' ').m.out == y.out && QuotePart(e, m, ' ').m.style == m.style;
    assert "33" == ['3', '3'];
    BarsHaveNoEscape(0);
    hide T.PutAll, Ansi, Restyle, T.Painted, Utf8.Encode, T.ESC, QuotePart;
    FaintWhiteSeen(e, m);
    SaySeen(a, k, bar);
    RestyleSeen(e, k);
    if m.style.math {
      ColourSeen(e, z, '3');
    }
  }

  lemma {:induction false} UnderlineSeen(e: Env, m: Md, on: bool)
    requires Live(e, m)
    ensures var n := Ansi(e, m, if on then "36;4" else "39;24");
            && Live(e, n) && n.style == m.style
            && Seen(n) == Seen(m).(attr := Look(m).(colour := if on then 36 else 39, underline := on))
  {
    T.TwoDigits('3', '6');
    T.TwoDigits('3', '9');
    T.OneDigit('4');
    T.TwoDigits('2', '4');
    var x: Text, y: Text := if on then ['3', '6'] else ['3', '9'], if on then ['4'] else ['2', '4'];
    assert (if on then "36;4" else "39;24") == x + T.SEMICOLON + y;
    UnderlineIs(Look(m), on);
    hide *;
    TwoSeen(e, m, x, y);
  }

  lemma {:induction false} UnderlineIs(a: T.Attr, on: bool)
    ensures T.Select(T.Select(a, if on then 36 else 39), if on then 4 else 24)
            == a.(colour := if on then 36 else 39, underline := on)
  {
  }

  /** The text of a link is underlined and cyan, its address faint; the end of the address ends bold as well. */
  lemma {:induction false} LinkSeen(e: Env, m: Md, c: Byte)
    requires Live(e, m) && !m.style.code && !m.style.fence
    requires || (c == '[' && m.side.link == 0) || (c == ']' && m.side.link == 1)
             || (c == '(' && m.side.link == 2) || (c == ')' && m.side.link == 3)
    ensures var t, a := LinkPart(e, m, c), Look(m);
            && t.Done? && Live(e, t.m) && t.m.style == m.style
            && Seen(t.m) == Seen(m).(attr := if c == '[' then a.(colour := 36, underline := true)
                                             else if c == ']' then a.(colour := 39, underline := false)
                                             else if c == '(' then a.(faint := true)
                                             else a.(bold := false, faint := false))
  {
    hide T.PutAll, Ansi;
    if c == '[' {
      UnderlineSeen(e, m, true);
    } else if c == ']' {
      UnderlineSeen(e, m, false);
    } else if c == '(' {
      FaintSeen(e, m);
    } else {
      BoldSeen(e, m, false);
    }
  }

  // ----- the end of a block

  lemma {:induction false} EndWrites(e: Env, m: Md)
    requires !m.tex.inLatex
    ensures var k := Say(m, Counted(m.marks) + Held(m.head));
            Ended(e, m).out == if Styled(m.style) then Ansi(e, k, "0").out else k.out
  {
    hide Ansi, Counted, Held;
    var k := Say(m, Counted(m.marks) + Held(m.head));
    AnsiOut(e, k, k, "0");
  }

  lemma {:induction false} RestHasNoEscape(m: Md)
    requires T.ESC !in m.head.digits
    ensures T.ESC !in Counted(m.marks) + Held(m.head)
  {
    var h, k := m.head, m.marks;
    assert ">" == ['>'] && "." == ['.'];
    assert T.ESC !in HeldDigits(h);
    assert T.ESC !in Times('-', h.dashes) && T.ESC !in Times('*', k.stars) && T.ESC !in Times('~', k.tildes);
    assert T.ESC !in Times('`', k.ticks) && T.ESC !in Times('#', k.hashes);
  }

  /** When a block ends with any style on, the terminal is back to normal; and where the terminal agreed, nothing
      is bold, italic, struck out or faint after it. */
  lemma {:induction false} EndSeen(e: Env, m: Md)
    requires Live(e, m) && !m.tex.inLatex && T.ESC !in m.head.digits
    ensures var n, rest := Ended(e, m), Counted(m.marks) + Held(m.head);
            && Live(e, n) && Adds(m, n, rest, Look(m), if Styled(m.style) then T.NORMAL else Look(m))
            && (Agrees(m) ==> Agrees(n))
  {
    var n, rest := Ended(e, m), Counted(m.marks) + Held(m.head);
    var k := Say(m, rest);
    EndWrites(e, m);
    RestHasNoEscape(m);
    assert n.style == Style(false, false, false, false, false, false, false);
    hide T.PutAll, Ansi, T.Painted, Counted, Held, Ended, T.ESC;
    SaySeen(m, k, rest);
    if Styled(m.style) {
      ResetSeen(e, k);
    }
  }
}
