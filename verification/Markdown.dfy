/** The streaming Markdown and LaTeX renderer: a machine fed byte by byte that sometimes looks at a byte again. */
module Markdown {
  import opened Options
  import opened CText
  import Utf8

  // ----- state

  /** A LaTeX command that takes arguments in braces: \frac takes two, every other one. */
  datatype Brace = NoBrace | OneArg(id: nat) | TwoArgs

  /** Marks counted but not yet acted on. */
  datatype Marks = Marks(stars: nat, ticks: nat, hashes: nat, tildes: nat, dollars: nat)

  /** The LaTeX command being read and the arguments collected for it. */
  datatype Tex = Tex(latex: Text, inLatex: bool, brace: Brace, ba1: Text, ba2: Text, depth: int, which: nat, wait: bool)

  datatype Style = Style(bold: bool, italic: bool, code: bool, fence: bool, header: bool, strike: bool, math: bool)

  /** What stands held back at the start of a line. */
  datatype Head = Head(sol: bool, dashes: nat, gt: bool, digits: Text, dot: bool)

  /** Links, super- and subscripts, and the language tag of a fence. */
  datatype Side = Side(link: nat, supSub: nat, supBrace: bool, lang: Text, langCol: bool)

  /** md_t, with each fixed buffer as the bytes in use, and the bytes written to the terminal so far. */
  datatype Md = Md(out: seq<Octet>, marks: Marks, tex: Tex, style: Style, head: Head, side: Side)

  /** Terminal and tables: colour, width, symbols, the commands with arguments and what they print. */
  datatype Env = Env(
    color: bool, width: nat,
    symbol: Text -> Option<Text>, braceOf: Text -> Brace,
    sup: Byte -> Option<Text>, sub: Byte -> Option<Text>,
    result: (Text, Text, Text) -> Text)

  const LATEX_MAX := 62
  const ARG_MAX := 510
  const LANG_MAX := 30
  const DIGITS_MAX := 14

  /** md_begin_block, on what has been written so far. */
  function Begin(out: seq<Octet>): Md {
    Md(out, Marks(0, 0, 0, 0, 0), Tex([], false, NoBrace, [], [], 0, 0, false),
       Style(false, false, false, false, false, false, false), Head(true, 0, false, [], false),
       Side(0, 0, false, [], false))
  }

  /** What one look at a byte leads to: the byte is used up, or must be looked at again, or goes on to
      the next part of the loop body. */
  datatype Turn = Done(m: Md) | Again(m: Md) | On(m: Md)

  // ----- output

  function Say(m: Md, bytes: seq<Octet>): Md {
    m.(out := m.out + bytes)
  }

  function Ansi(e: Env, m: Md, code: Text): (r: Md)
    ensures r == m.(out := r.out) && (!e.color ==> r == m)
  {
    if e.color then Say(m, "\U{1B}[" + code + "m") else m
  }

  function Times(c: Octet, n: nat): seq<Octet> {
    seq(n, _ => c)
  }

  /** Bold and italic again, after a reset. */
  function Restyle(e: Env, m: Md): (r: Md)
    ensures r == m.(out := r.out) && (!e.color ==> r == m)
  {
    var n := if m.style.bold then Ansi(e, m, "1") else m;
    if m.style.italic then Ansi(e, n, "3") else n
  }

  function HeaderStyle(e: Env, m: Md, h: nat): (r: Md)
    ensures r == m.(out := r.out)
  {
    Ansi(e, m, if h == 1 then "1;35" else if h == 2 then "1;36" else "1;34")
  }

  // ----- resolving what has been counted

  function Bolder(m: Md, bold: bool, italic: bool): Md {
    m.(style := m.style.(bold := bold, italic := italic))
  }

  function ResolveStars(e: Env, m: Md): (r: Md)
    ensures r.marks == m.marks.(stars := 0) && r.tex == m.tex && r.head == m.head && r.side == m.side
    ensures r.style == m.style.(bold := r.style.bold, italic := r.style.italic)
    ensures m.marks.stars == 0 ==> r == m
  {
    var n := m.(marks := m.marks.(stars := 0));
    if m.marks.stars >= 3 then
      Say(if m.style.bold && m.style.italic then Bolder(Ansi(e, n, "22;23"), false, false)
          else Bolder(Ansi(e, n, "1;3"), true, true), Times('*', m.marks.stars - 3))
    else if m.marks.stars == 2 then
      Bolder(Ansi(e, n, if m.style.bold then "22" else "1"), !m.style.bold, m.style.italic)
    else if m.marks.stars == 1 then
      Bolder(Ansi(e, n, if m.style.italic then "23" else "3"), m.style.bold, !m.style.italic)
    else n
  }

  function ResolveTildes(e: Env, m: Md): (r: Md)
    ensures r.marks == m.marks.(tildes := 0) && r.tex == m.tex && r.head == m.head && r.side == m.side
    ensures r.style == m.style.(strike := r.style.strike)
    ensures m.marks.tildes == 0 ==> r.out == m.out && r.style == m.style
  {
    var n := m.(marks := m.marks.(tildes := 0));
    if m.marks.tildes >= 2 then
      Say(Ansi(e, n, if m.style.strike then "29" else "9").(style := m.style.(strike := !m.style.strike)),
          Times('~', m.marks.tildes - 2))
    else Say(n, Times('~', m.marks.tildes))
  }

  function FlushHashes(m: Md): (r: Md)
    ensures r.marks == m.marks.(hashes := 0)
    ensures r.tex == m.tex && r.style == m.style && r.head == m.head && r.side == m.side
    ensures m.marks.hashes == 0 ==> r.out == m.out
  {
    Say(m, Times('#', m.marks.hashes)).(marks := m.marks.(hashes := 0))
  }

  function CodeOff(e: Env, m: Md): (r: Md)
    ensures r == m.(out := r.out, style := m.style.(code := false))
  {
    var n := Restyle(e, Ansi(e, m, "0"));
    var h := if m.marks.hashes > 0 then m.marks.hashes else 1;
    (if m.style.header then HeaderStyle(e, n, h) else n).(style := m.style.(code := false))
  }

  /** Three ticks or more open or close a fence; fewer are text inside one, and else switch inline code. */
  function ResolveTicks(e: Env, m: Md): (r: Md)
    ensures r.marks == m.marks.(ticks := 0) && r.tex == m.tex && r.head == m.head
    ensures r.style == m.style.(fence := r.style.fence, code := r.style.code)
    ensures r.style.fence != m.style.fence <==> m.marks.ticks >= 3
    ensures r.side == if m.marks.ticks >= 3 && !m.style.fence then m.side.(lang := [], langCol := true) else m.side
    ensures m.marks.ticks >= 3 || m.style.fence ==> r.style.code == m.style.code
    ensures m.style.fence && m.marks.ticks < 3 ==> r.out == m.out + Times('`', m.marks.ticks)
    ensures m.marks.ticks >= 3 && !e.color ==> r.out == m.out
  {
    var n := m.(marks := m.marks.(ticks := 0));
    if m.marks.ticks >= 3 then
      (if m.style.fence then Ansi(e, n, "0").(style := m.style.(fence := false))
       else Ansi(e, n, "32").(style := m.style.(fence := true), side := m.side.(lang := [], langCol := true)))
    else if m.style.fence then Say(n, Times('`', m.marks.ticks))
    else if m.style.code then CodeOff(e, n)
    else Ansi(e, n, "36").(style := m.style.(code := true))
  }

  /** The symbol of a command, or the command as it was typed. */
  function CommandText(e: Env, latex: Text): Text {
    match e.symbol(latex)
    case Some(sym) => sym
    case None => "\\" + latex
  }

  function ResolveLatex(e: Env, m: Md): (r: Md)
    ensures r.marks == m.marks && r.style == m.style && r.head == m.head && r.side == m.side
    ensures !r.tex.inLatex && |r.tex.latex| <= |m.tex.latex|
    ensures |r.tex.ba1| <= |m.tex.ba1| && |r.tex.ba2| <= |m.tex.ba2|
    ensures r.tex.brace == m.tex.brace || (r.tex.wait && r.tex.which == 1 && r.tex.latex == m.tex.latex)
  {
    if m.tex.latex == [] then Say(m, "\\").(tex := m.tex.(inLatex := false))
    else
      var b := e.braceOf(m.tex.latex);
      if b != NoBrace then
        m.(tex := m.tex.(inLatex := false, brace := b, which := 1, ba1 := [], ba2 := [], depth := 0, wait := true))
      else Say(m, CommandText(e, m.tex.latex)).(tex := m.tex.(inLatex := false, latex := []))
  }

  // ----- the parts of the loop body, in order

  function Argc(b: Brace): nat {
    if b == TwoArgs then 2 else 1
  }

  function BraceClosed(e: Env, m: Md): Md {
    if m.tex.which < Argc(m.tex.brace) then m.(tex := m.tex.(depth := 0, which := m.tex.which + 1, wait := true))
    else
      Say(m, e.result(m.tex.latex, m.tex.ba1, m.tex.ba2)).(
      tex := m.tex.(brace := NoBrace, ba1 := [], ba2 := [], depth := 0, which := 0, wait := false))
  }

  /** A byte of an argument; what the buffer cannot hold is dropped. */
  function Collected(t: Tex, c: Byte): Tex {
    if t.depth <= 0 then t
    else if t.which == 1 && |t.ba1| < ARG_MAX then t.(ba1 := t.ba1 + [c])
    else if t.which == 2 && |t.ba2| < ARG_MAX then t.(ba2 := t.ba2 + [c])
    else t
  }

  function BracePart(e: Env, m: Md, c: Byte): Turn {
    if m.tex.brace == NoBrace then On(m)
    else if m.tex.wait then
      if c == '{' then Done(m.(tex := m.tex.(wait := false, depth := 1)))
      else if IsSpace(c) then Done(m)
      else On(Say(m, CommandText(e, m.tex.latex)).(tex := m.tex.(brace := NoBrace, latex := [])))
    else if c == '}' && m.tex.depth == 1 then Done(BraceClosed(e, m))
    else
      var d := if c == '{' then m.tex.depth + 1 else if c == '}' then m.tex.depth - 1 else m.tex.depth;
      Done(m.(tex := Collected(m.tex.(depth := d), c)))
  }

  predicate IsAlpha(c: char) {
    'a' <= c <= 'z' || 'A' <= c <= 'Z'
  }

  function MathOn(e: Env, m: Md): (r: Md)
    ensures r == m.(out := r.out, style := m.style.(math := true))
  {
    if m.style.math then m else Ansi(e, m, "33").(style := m.style.(math := true))
  }

  function MathOff(e: Env, m: Md): (r: Md)
    ensures r == m.(out := r.out, style := m.style.(math := false))
  {
    if m.style.math then Restyle(e, Ansi(e, m, "0")).(style := m.style.(math := false)) else m
  }

  /** What a backslash and one of these bytes print. */
  function Escaped(c: Byte): Option<seq<Octet>> {
    if c in "#$%&_{}" then Some([c])
    else if c == ',' then Some(Utf8.Encode(0x2009))
    else if c == ';' || c == ':' || c == ' ' then Some(" ")
    else if c == '!' then Some([])
    else if c == '\\' then Some("\n")
    else None
  }

  /** The byte after a backslash, when it is no letter. */
  function EscapePart(e: Env, m: Md, c: Byte): (t: Turn)
    ensures !t.Again? && t.m.marks == m.marks && t.m.tex == m.tex && t.m.head == m.head && t.m.side == m.side
    ensures t.m.style == m.style.(math := t.m.style.math)
  {
    if c == '(' || c == '[' then Done(MathOn(e, m))
    else if c == ')' || c == ']' then Done(MathOff(e, m))
    else match Escaped(c)
         case Some(bytes) => Done(Say(m, bytes))
         case None => On(Say(m, "\\"))
  }

  function LatexPart(e: Env, m: Md, c: Byte): Turn {
    if !m.tex.inLatex then On(m)
    else if IsAlpha(c) then
      Done(if |m.tex.latex| < LATEX_MAX then m.(tex := m.tex.(latex := m.tex.latex + [c])) else m)
    else if m.tex.latex == [] then EscapePart(e, m.(tex := m.tex.(inLatex := false)), c)
    else
      var n := ResolveLatex(e, m);
      if n.tex.brace != NoBrace then Again(n) else On(n)
  }

  function Shifted(e: Env, m: Md, c: Byte): (r: Md)
    ensures r == m.(out := r.out)
  {
    match if m.side.supSub == 1 then e.sup(c) else e.sub(c)
    case Some(sym) => Say(m, sym)
    case None => Say(m, [c])
  }

  function SupPart(e: Env, m: Md, c: Byte): Turn {
    if m.side.supSub > 0 then
      if c == '{' && !m.side.supBrace then Done(m.(side := m.side.(supBrace := true)))
      else if m.side.supBrace then
        (if c == '}' then Done(m.(side := m.side.(supSub := 0, supBrace := false))) else Done(Shifted(e, m, c)))
      else Done(Shifted(e, m, c).(side := m.side.(supSub := 0)))
    else if m.style.math && (c == '^' || c == '_') && !m.style.code && !m.style.fence then
      Done(m.(side := m.side.(supSub := if c == '^' then 1 else 2)))
    else On(m)
  }

  function LangPart(e: Env, m: Md, c: Byte): Turn {
    if !m.side.langCol then On(m)
    else if c == '\n' then
      var n := if m.side.lang != [] then Ansi(e, Say(Ansi(e, m, "2;3"), m.side.lang), "22;23") else m;
      Done(Say(n, "\n").(side := m.side.(langCol := false), head := m.head.(sol := true)))
    else Done(if |m.side.lang| < LANG_MAX then m.(side := m.side.(lang := m.side.lang + [c])) else m)
  }

  function Literal(m: Md, c: Byte): Md {
    Say(m, [c]).(head := m.head.(sol := c == '\n'))
  }

  function FencePart(m: Md, c: Byte): Turn {
    if m.style.fence && c != '`' && m.marks.ticks == 0 then Done(Literal(m, c)) else On(m)
  }

  function OneTick(e: Env, m: Md): Md {
    var a := if m.marks.stars > 0 && !m.style.fence then ResolveStars(e, m) else m;
    var b := FlushHashes(ResolveTildes(e, a));
    b.(marks := b.marks.(ticks := m.marks.ticks + 1))
  }

  function TickPart(e: Env, m: Md, c: Byte): Turn {
    if c == '`' then Done(OneTick(e, m))
    else if m.marks.ticks > 0 then
      var n := ResolveTicks(e, m);
      if n.style.fence && n.side.langCol then Again(n)
      else if n.style.code || n.style.fence then Done(Literal(n, c))
      else On(n)
    else On(m)
  }

  function CodePart(m: Md, c: Byte): Turn {
    if m.style.code then Done(Literal(m, c)) else On(m)
  }

  function StarPart(e: Env, m: Md, c: Byte): Turn {
    if c == '*' then
      var n := FlushHashes(m);
      Done(n.(marks := n.marks.(stars := m.marks.stars + 1)))
    else On(ResolveStars(e, m))
  }

  function TildePart(e: Env, m: Md, c: Byte): Turn {
    if c == '~' && !m.style.code && !m.style.fence then
      Done(m.(marks := m.marks.(tildes := m.marks.tildes + 1)))
    else On(ResolveTildes(e, m))
  }

  function HashPart(e: Env, m: Md, c: Byte): Turn {
    if m.head.sol && c == '#' then Done(m.(marks := m.marks.(hashes := m.marks.hashes + 1)))
    else if m.marks.hashes > 0 && c == ' ' then
      Done(HeaderStyle(e, m, m.marks.hashes).(
        marks := m.marks.(hashes := 0), style := m.style.(header := true), head := m.head.(sol := false)))
    else On(FlushHashes(m))
  }

  function DollarPart(e: Env, m: Md, c: Byte): Turn {
    if c == '$' && !m.style.code && !m.style.fence then Done(m.(marks := m.marks.(dollars := m.marks.dollars + 1)))
    else if m.marks.dollars == 0 then On(m)
    else
      var k := if m.style.math then Restyle(e, Ansi(e, m, "0")) else Ansi(e, m, "33");
      var n := if m.style.math && m.style.header then Ansi(e, k, "1;35") else k;
      On(n.(style := m.style.(math := !m.style.math), marks := m.marks.(dollars := 0)))
  }

  function BackslashPart(m: Md, c: Byte): Turn {
    if c == '\\' && !m.style.code && !m.style.fence then
      Done(m.(tex := m.tex.(inLatex := true, latex := [])))
    else On(m)
  }

  function HeldDigits(h: Head): Text {
    h.digits + (if h.digits != [] && h.dot then "." else [])
  }

  function DigitPart(m: Md, c: Byte): Turn {
    if m.head.sol && '0' <= c <= '9' then
      Done(if |m.head.digits| < DIGITS_MAX then m.(head := m.head.(digits := m.head.digits + [c])) else m)
    else if m.head.digits == [] then On(m)
    else if c == '.' && !m.head.dot then Done(m.(head := m.head.(dot := true)))
    else if c == ' ' && m.head.dot then
      Done(Say(m, "  " + m.head.digits + ". ").(head := m.head.(sol := false, digits := [], dot := false)))
    else On(Say(m, HeldDigits(m.head)).(head := m.head.(digits := [], dot := false)))
  }

  function Repeat(bytes: seq<Octet>, n: nat): seq<Octet> {
    if n == 0 then [] else bytes + Repeat(bytes, n - 1)
  }

  function Rule(e: Env, m: Md): (r: Md)
    ensures r == m.(out := r.out)
  {
    var bars := Repeat(Utf8.Encode(0x2500), if e.width < 72 then e.width else 72);
    Say(Ansi(e, Say(Ansi(e, m, "2"), bars), "0"), "\n")
  }

  function DashPart(e: Env, m: Md, c: Byte): Turn {
    if m.head.sol && c == '-' then Done(m.(head := m.head.(dashes := m.head.dashes + 1)))
    else if m.head.dashes == 0 || c == '-' then On(m)
    else if c == ' ' && m.head.dashes == 1 then
      Done(Say(m, "  " + Utf8.Encode(0x2022) + " ").(head := m.head.(sol := false, dashes := 0)))
    else if c == '\n' && m.head.dashes >= 3 then Done(Rule(e, m).(head := m.head.(sol := true, dashes := 0)))
    else On(Say(m, Times('-', m.head.dashes)).(head := m.head.(dashes := 0)))
  }

  function QuotePart(e: Env, m: Md, c: Byte): Turn {
    if m.head.sol && c == '>' then Done(m.(head := m.head.(gt := true)))
    else if !m.head.gt then On(m)
    else if c == ' ' then
      var k := Restyle(e, Ansi(e, Say(Ansi(e, m, "2;37"), Utf8.Encode(0x258E) + " "), "0"));
      Done((if m.style.math then Ansi(e, k, "33") else k).(head := m.head.(gt := false, sol := false)))
    else On(Say(m, ">").(head := m.head.(gt := false)))
  }

  function LinkPart(e: Env, m: Md, c: Byte): Turn {
    if c == '[' && !m.style.code && !m.style.fence && m.side.link == 0 then
      Done(Ansi(e, m, "36;4").(side := m.side.(link := 1)))
    else if m.side.link == 1 && c == ']' then Done(Ansi(e, m, "39;24").(side := m.side.(link := 2)))
    else if m.side.link == 2 && c == '(' then Done(Ansi(e, m, "2").(side := m.side.(link := 3)))
    else if m.side.link == 2 then On(m.(side := m.side.(link := 0)))
    else if m.side.link == 3 && c == ')' then Done(Ansi(e, m, "22").(side := m.side.(link := 0)))
    else On(m)
  }

  function LastPart(e: Env, m: Md, c: Byte): Turn {
    if c == '\n' then
      var n := Say(m, "\n");
      Done((if m.style.header then Ansi(e, n, "0") else n).(
        style := m.style.(header := false), head := m.head.(sol := true)))
    else Done(Say(m, [c]).(head := m.head.(sol := false)))
  }

  // ----- the loop body

  function AfterDash(e: Env, m: Md, c: Byte): Turn {
    var t := QuotePart(e, m, c);
    if !t.On? then t
    else
      var u := LinkPart(e, t.m, c);
      if u.On? then LastPart(e, u.m, c) else u
  }

  function AfterDollar(e: Env, m: Md, c: Byte): Turn {
    var t := BackslashPart(m, c);
    if !t.On? then t
    else
      var u := DigitPart(t.m, c);
      if !u.On? then u
      else
        var v := DashPart(e, u.m, c);
        if v.On? then AfterDash(e, v.m, c) else v
  }

  /** From the stars on: nothing literal is open. */
  function AfterCode(e: Env, m: Md, c: Byte): Turn {
    var t := StarPart(e, m, c);
    if !t.On? then t
    else
      var u := TildePart(e, t.m, c);
      if !u.On? then u
      else
        var v := HashPart(e, u.m, c);
        if !v.On? then v
        else
          var w := DollarPart(e, v.m, c);
          if w.On? then AfterDollar(e, w.m, c) else w
  }

  function AfterLang(e: Env, m: Md, c: Byte): Turn {
    var t := FencePart(m, c);
    if !t.On? then t
    else
      var u := TickPart(e, t.m, c);
      if !u.On? then u
      else
        var v := CodePart(u.m, c);
        if v.On? then AfterCode(e, v.m, c) else v
  }

  function AfterLatex(e: Env, m: Md, c: Byte): Turn {
    var t := SupPart(e, m, c);
    if !t.On? then t
    else
      var u := LangPart(e, t.m, c);
      if u.On? then AfterLang(e, u.m, c) else u
  }

  function AfterBrace(e: Env, m: Md, c: Byte): Turn {
    var t := LatexPart(e, m, c);
    if t.On? then AfterLatex(e, t.m, c) else t
  }

  /** One look at one byte. */
  function Examine(e: Env, m: Md, c: Byte): Turn {
    var t := BracePart(e, m, c);
    if t.On? then AfterBrace(e, t.m, c) else t
  }

  // ----- the end of a block

  /** What the line start and the counters still hold back. */
  function Held(h: Head): seq<Octet> {
    Times('-', h.dashes) + HeldDigits(h) + (if h.gt then ">" else [])
  }

  function Counted(k: Marks): seq<Octet> {
    Times('*', k.stars) + Times('~', k.tildes) + Times('`', k.ticks) + Times('#', k.hashes)
  }

  predicate Styled(s: Style) {
    s.bold || s.italic || s.code || s.fence || s.header || s.strike || s.math
  }

  function Settled(h: Head): Head {
    Head(true, 0, false, [], if h.digits != [] then false else h.dot)
  }

  /** md_end_block: a command is resolved, what was held back is written, and every style ends. */
  function Ended(e: Env, m: Md): Md {
    var a := if m.tex.inLatex then ResolveLatex(e, m) else m;
    var b := Say(a, Counted(m.marks) + Held(m.head));
    var c := if Styled(m.style) then Ansi(e, b, "0") else b;
    Md(c.out, Marks(0, 0, 0, 0, 0), c.tex.(brace := NoBrace),
       Style(false, false, false, false, false, false, false), Settled(m.head),
       m.side.(link := 0, supSub := 0, supBrace := false))
  }
}
