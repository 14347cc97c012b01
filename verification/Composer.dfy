/** The line editor of the client: a byte buffer moved by memmove, and the editor of characters it is. */
module Composer {
  import opened Options
  import opened CText
  import opened Utf8

  // ----- characters and their bytes

  predicate Scalars(chars: seq<nat>) {
    forall k :: 0 <= k < |chars| ==> IsScalar(chars[k])
  }

  function Bytes(chars: seq<nat>): seq<Octet>
    requires Scalars(chars)
  {
    if chars == [] then [] else Bytes(chars[..|chars| - 1]) + Encode(chars[|chars| - 1])
  }

  /** Where character k begins. */
  function Offset(chars: seq<nat>, k: nat): nat
    requires Scalars(chars) && k <= |chars|
  {
    |Bytes(chars[..k])|
  }

  lemma {:induction false} BytesLast(chars: seq<nat>)
    requires Scalars(chars) && chars != []
    ensures var n := |chars| - 1;
            && Scalars(chars[..n]) && IsScalar(chars[n]) && Bytes(chars) == Bytes(chars[..n]) + Encode(chars[n])
  {
    hide Encode, IsScalar;
  }

  lemma {:induction false} ScalarsJoin(x: seq<nat>, y: seq<nat>)
    requires Scalars(x) && Scalars(y)
    ensures Scalars(x + y) && Bytes([]) == []
  {
    hide IsScalar;
  }

  lemma {:induction false} BytesJoins(x: seq<nat>, y: seq<nat>)
    requires Scalars(x) && Scalars(y)
    ensures Scalars(x + y) && Bytes(x + y) == Bytes(x) + Bytes(y)
    decreases |y|
  {
    hide *;
    ScalarsJoin(x, y);
    if y == [] {
      assert x + y == x;
    } else {
      var n := |y| - 1;
      BytesLast(y);
      BytesJoins(x, y[..n]);
      assert (x + y)[..|x| + n] == x + y[..n] && (x + y)[|x| + n] == y[n];
      BytesLast(x + y);
    }
  }

  lemma {:induction false} OffsetSplits(chars: seq<nat>, k: nat)
    requires Scalars(chars) && k <= |chars|
    ensures Scalars(chars[..k]) && Scalars(chars[k..])
    ensures Bytes(chars) == Bytes(chars[..k]) + Bytes(chars[k..])
    ensures Offset(chars, k) <= |Bytes(chars)|
    ensures Bytes(chars)[..Offset(chars, k)] == Bytes(chars[..k])
    ensures Bytes(chars)[Offset(chars, k)..] == Bytes(chars[k..])
  {
    hide Bytes, IsScalar;
    BytesJoins(chars[..k], chars[k..]);
    assert chars == chars[..k] + chars[k..];
  }

  lemma {:induction false} EncodeShape(cp: nat)
    requires IsScalar(cp)
    ensures !IsContinuation(Encode(cp)[0])
    ensures forall j :: 1 <= j < |Encode(cp)| ==> IsContinuation(Encode(cp)[j])
  {
  }

  /** The bytes of character k: the first is a boundary, the others are not. */
  lemma {:induction false} CharacterAt(chars: seq<nat>, k: nat)
    requires Scalars(chars) && k < |chars|
    ensures var (b, p, q) := (Bytes(chars), Offset(chars, k), Offset(chars, k + 1));
            && p < q <= |b| && b[p..q] == Encode(chars[k])
            && !IsContinuation(b[p]) && (forall j :: p < j < q ==> IsContinuation(b[j]))
  {
    hide Encode, IsContinuation;
    OffsetSplits(chars, k);
    OffsetSplits(chars, k + 1);
    var front := chars[..k + 1];
    assert front[..k] == chars[..k];
    EncodeShape(chars[k]);
    var (b, p, q) := (Bytes(chars), Offset(chars, k), Offset(chars, k + 1));
    assert b[..q] == b[..p] + Encode(chars[k]);
    SliceOfFront(b, p, q, Encode(chars[k]));
  }

  lemma {:induction false} SliceOfFront(b: seq<Octet>, p: nat, q: nat, x: seq<Octet>)
    requires p <= q <= |b| && b[..q] == b[..p] + x
    ensures b[p..q] == x && q == p + |x| && forall j :: p <= j < q ==> b[j] == x[j - p]
  {
    assert |b[..q]| == p + |x|;
    assert b[p..q] == b[..q][p..];
    forall j | p <= j < q ensures b[j] == x[j - p] {
      assert b[j] == b[..q][j];
    }
  }

  // ----- the bytes are UTF-8

  /** The reader of RFC 3629 on a whole text. */
  function ReadAll(b: seq<char>): Option<seq<nat>>
    decreases |b|
  {
    if b == [] then Some([])
    else
      var n := LeadLength(b[0]);
      if n == 0 || n > |b| then None
      else match (Decode(b[..n]), ReadAll(b[n..]))
           case (Some(cp), Some(rest)) => Some([cp] + rest)
           case _ => None
  }

  lemma {:induction false} ReadsFirst(cp: nat, rest: seq<char>)
    requires IsScalar(cp) && ReadAll(rest).Some?
    ensures ReadAll(Encode(cp) + rest) == Some([cp] + ReadAll(rest).value)
  {
    EncodeDecodes(cp);
    AllContinuations(Encode(cp));
    var b := Encode(cp) + rest;
    hide Decode, Encode, LeadLength, IsScalar;
    assert b[0] == Encode(cp)[0];
    assert b[..|Encode(cp)|] == Encode(cp) && b[|Encode(cp)|..] == rest;
  }

  /** Whatever characters the buffer stands for, a UTF-8 reader finds exactly them in its bytes. */
  lemma {:induction false} BytesAreUtf8(chars: seq<nat>)
    requires Scalars(chars)
    ensures ReadAll(Bytes(chars)) == Some(chars)
    decreases |chars|
  {
    hide Encode, IsScalar, Bytes;
    if chars == [] {
      BytesOfNone();
    } else {
      assert chars == [chars[0]] + chars[1..];
      BytesJoins([chars[0]], chars[1..]);
      BytesOfOne(chars[0]);
      BytesAreUtf8(chars[1..]);
      ReadsFirst(chars[0], Bytes(chars[1..]));
    }
  }

  lemma {:induction false} BytesOfNone()
    ensures Bytes([]) == []
  {
  }

  lemma {:induction false} BytesOfOne(cp: nat)
    requires IsScalar(cp)
    ensures Bytes([cp]) == Encode(cp)
  {
    hide Encode, IsScalar;
    assert [cp][..0] == [];
  }

  // ----- the editor of characters

  const CAP := 16384

  /** The text and the number of characters before the cursor. */
  datatype Line = Line(chars: seq<nat>, at: nat)

  datatype Edit = Insert(xs: seq<nat>) | Backspace | Delete | Left | Right | Home | End | KillLine | KillWord

  /** What a scan passes over; of a character above the ASCII range all bytes count as the character does. */
  datatype Scan = ToNewline | OverBlanks | OverWord

  predicate Passes(scan: Scan, c: nat) {
    match scan
    case ToNewline => c != 0x0A
    case OverBlanks => c == 0x20 || c == 0x09
    case OverWord => c != 0x20 && c != 0x09 && c != 0x0A
  }

  function Back(scan: Scan, chars: seq<nat>, at: nat): (r: nat)
    requires at <= |chars|
    ensures r <= at
  {
    if at > 0 && Passes(scan, chars[at - 1]) then Back(scan, chars, at - 1) else at
  }

  function Ahead(scan: Scan, chars: seq<nat>, at: nat): (r: nat)
    requires at <= |chars|
    ensures at <= r <= |chars|
    decreases |chars| - at
  {
    if at < |chars| && Passes(scan, chars[at]) then Ahead(scan, chars, at + 1) else at
  }

  function WordStart(chars: seq<nat>, at: nat): (r: nat)
    requires at <= |chars|
    ensures r <= at
  {
    Back(OverWord, chars, Back(OverBlanks, chars, at))
  }

  function Cut(l: Line, from: nat): Line
    requires from <= l.at <= |l.chars|
  {
    Line(l.chars[..from] + l.chars[l.at..], from)
  }

  /** A text the buffer can hold, terminator included and one byte to spare. */
  predicate Fits(l: Line) {
    Scalars(l.chars) && l.at <= |l.chars| && |Bytes(l.chars)| < CAP - 1
  }

  function Inserted(l: Line, xs: seq<nat>): Line
    requires l.at <= |l.chars|
  {
    Line(l.chars[..l.at] + xs + l.chars[l.at..], l.at + |xs|)
  }

  function Apply(l: Line, e: Edit): Line
    requires Fits(l) && (e.Insert? ==> Scalars(e.xs))
  {
    match e
    case Insert(xs) => if |Bytes(l.chars)| + |Bytes(xs)| >= CAP - 1 then l else Inserted(l, xs)
    case Backspace => if l.at == 0 then l else Cut(l, l.at - 1)
    case Delete =>
      if l.at == |l.chars| then l else Line(l.chars[..l.at] + l.chars[l.at + 1..], l.at)
    case Left => if l.at == 0 then l else l.(at := l.at - 1)
    case Right => if l.at == |l.chars| then l else l.(at := l.at + 1)
    case Home => l.(at := Back(ToNewline, l.chars, l.at))
    case End => l.(at := Ahead(ToNewline, l.chars, l.at))
    case KillLine => Cut(l, Back(ToNewline, l.chars, l.at))
    case KillWord => Cut(l, WordStart(l.chars, l.at))
  }

  lemma {:induction false} BytesWithout(chars: seq<nat>, i: nat, j: nat)
    requires Scalars(chars) && i <= j <= |chars|
    ensures Scalars(chars[..i] + chars[j..])
    ensures Offset(chars, i) <= Offset(chars, j) <= |Bytes(chars)|
    ensures Bytes(chars[..i] + chars[j..]) == Bytes(chars)[..Offset(chars, i)] + Bytes(chars)[Offset(chars, j)..]
    ensures Offset(chars[..i] + chars[j..], i) == Offset(chars, i)
  {
    hide Bytes, IsScalar;
    OffsetSplits(chars, i);
    OffsetSplits(chars, j);
    BytesJoins(chars[..i], chars[j..]);
    OffsetSplits(chars[..j], i);
    assert chars[..j][..i] == chars[..i];
    assert (chars[..i] + chars[j..])[..i] == chars[..i];
  }

  lemma {:induction false} BytesInserted(l: Line, xs: seq<nat>)
    requires Scalars(l.chars) && l.at <= |l.chars| && Scalars(xs)
    ensures var m := Inserted(l, xs); var n := Offset(l.chars, l.at);
            && Scalars(m.chars) && n <= |Bytes(l.chars)|
            && Bytes(m.chars) == Bytes(l.chars)[..n] + Bytes(xs) + Bytes(l.chars)[n..]
            && Offset(m.chars, m.at) == n + |Bytes(xs)|
  {
    hide Bytes, IsScalar;
    OffsetSplits(l.chars, l.at);
    var front, back := l.chars[..l.at], l.chars[l.at..];
    BytesJoins(front, xs);
    BytesJoins(front + xs, back);
    assert (front + xs + back)[..|front + xs|] == front + xs;
  }

  /** Every edit leaves a text that fits: valid characters, the cursor on a boundary, room to spare. */
  lemma {:induction false} ApplyFits(l: Line, e: Edit)
    requires Fits(l) && (e.Insert? ==> Scalars(e.xs))
    ensures Fits(Apply(l, e))
  {
    hide Bytes, IsScalar, Passes, Scalars;
    match e
    case Insert(xs) =>
      BytesInserted(l, xs);
    case Backspace =>
      if l.at > 0 {
        BytesWithout(l.chars, l.at - 1, l.at);
      }
    case Delete =>
      if l.at < |l.chars| {
        BytesWithout(l.chars, l.at, l.at + 1);
      }
    case KillLine =>
      BytesWithout(l.chars, Back(ToNewline, l.chars, l.at), l.at);
    case KillWord =>
      BytesWithout(l.chars, WordStart(l.chars, l.at), l.at);
    case _ =>
  }

  predicate WholeCharacters(es: seq<Edit>) {
    forall k :: 0 <= k < |es| && es[k].Insert? ==> Scalars(es[k].xs)
  }

  /** Any run of edits. */
  function ApplyAll(l: Line, es: seq<Edit>): (r: Line)
    requires Fits(l) && WholeCharacters(es)
    ensures Fits(r)
  {
    if es == [] then l
    else
      var m := ApplyAll(l, es[..|es| - 1]);
      var last := es[|es| - 1];
      ApplyFits(m, last);
      Apply(m, last)
  }

  // ----- laws of the editor

  function Times(e: Edit, n: nat): (es: seq<Edit>)
    requires !e.Insert?
    ensures |es| == n && WholeCharacters(es)
  {
    seq(n, _ => e)
  }

  lemma {:induction false} TimesMore(l: Line, e: Edit, n: nat)
    requires Fits(l) && !e.Insert?
    ensures ApplyAll(l, Times(e, n + 1)) == Apply(ApplyAll(l, Times(e, n)), e)
  {
    hide Fits, Apply, WholeCharacters;
    assert Times(e, n + 1)[..n] == Times(e, n);
  }

  /** n backspaces cut the n characters before the cursor. */
  lemma {:induction false} BackspacesCut(l: Line, n: nat)
    requires Fits(l) && n <= l.at
    ensures ApplyAll(l, Times(Backspace, n)) == Cut(l, l.at - n)
  {
    hide Bytes, Scalars, ApplyAll, WholeCharacters;
    if n == 0 {
      NoEdits(l);
      assert l.chars[..l.at] + l.chars[l.at..] == l.chars;
    } else {
      BackspacesCut(l, n - 1);
      TimesMore(l, Backspace, n - 1);
      assert Cut(Cut(l, l.at - n + 1), l.at - n) == Cut(l, l.at - n);
    }
  }

  lemma {:induction false} NoEdits(l: Line)
    requires Fits(l)
    ensures ApplyAll(l, Times(Backspace, 0)) == l
  {
  }

  /** Typing a text that fits and backspacing over it changes nothing. */
  lemma {:induction false} BackspacesUndoInsert(l: Line, xs: seq<nat>)
    requires Fits(l) && Scalars(xs)
    requires |Bytes(l.chars)| + |Bytes(xs)| < 16383
    ensures Fits(Apply(l, Insert(xs)))
    ensures ApplyAll(Apply(l, Insert(xs)), Times(Backspace, |xs|)) == l
  {
    hide *;
    InsertedApplies(l, xs);
    ApplyFits(l, Insert(xs));
    BackspacesCut(Inserted(l, xs), |xs|);
    CutInserted(l, xs);
  }

  /** A text is inserted, or not at all: when the buffer of 16384 bytes has no room for it, its terminator and
      one byte to spare. */
  lemma {:induction false} InsertedApplies(l: Line, xs: seq<nat>)
    requires Fits(l) && Scalars(xs)
    ensures |xs| <= Inserted(l, xs).at && l.at <= |l.chars|
    ensures Apply(l, Insert(xs)) == if |Bytes(l.chars)| + |Bytes(xs)| < 16383 then Inserted(l, xs) else l
  {
    hide Bytes, Scalars;
  }

  lemma {:induction false} CutInserted(l: Line, xs: seq<nat>)
    requires l.at <= |l.chars|
    ensures var m := Inserted(l, xs); |xs| <= m.at <= |m.chars| && Cut(m, m.at - |xs|) == l
  {
    var m := Inserted(l, xs);
    assert m.chars[..l.at] == l.chars[..l.at] && m.chars[m.at..] == l.chars[l.at..];
    assert l.chars[..l.at] + l.chars[l.at..] == l.chars;
  }

  /** The kill keys do what as many backspaces do, and stop at what they must not pass. */
  lemma {:induction false} KillsAreBackspaces(l: Line)
    requires Fits(l)
    ensures var n := Back(ToNewline, l.chars, l.at);
            && Apply(l, KillLine) == ApplyAll(l, Times(Backspace, l.at - n))
            && (forall k :: n <= k < l.at ==> l.chars[k] != 0x0A) && (n > 0 ==> l.chars[n - 1] == 0x0A)
    ensures Apply(l, KillWord) == ApplyAll(l, Times(Backspace, l.at - WordStart(l.chars, l.at)))
  {
    hide Bytes, Scalars, ApplyAll;
    var n := Back(ToNewline, l.chars, l.at);
    BackspacesCut(l, l.at - n);
    BackspacesCut(l, l.at - WordStart(l.chars, l.at));
    BackStops(ToNewline, l.chars, l.at);
  }

  lemma {:induction false} BackStops(scan: Scan, chars: seq<nat>, at: nat)
    requires at <= |chars|
    ensures var r := Back(scan, chars, at);
            && (forall k :: r <= k < at ==> Passes(scan, chars[k])) && (r > 0 ==> !Passes(scan, chars[r - 1]))
  {
    hide Passes;
    if at > 0 && Passes(scan, chars[at - 1]) {
      BackStops(scan, chars, at - 1);
    }
  }

  predicate Blank(c: nat) {
    c == 0x20 || c == 0x09
  }

  /** Ctrl+W passes the blanks before the cursor and then characters up to a blank, a line end or the start. */
  lemma {:induction false} KillWordStops(l: Line)
    requires l.at <= |l.chars|
    ensures var m, n := Back(OverBlanks, l.chars, l.at), WordStart(l.chars, l.at);
            && (forall k :: m <= k < l.at ==> Blank(l.chars[k])) && (m > 0 ==> !Blank(l.chars[m - 1]))
            && (forall k :: n <= k < m ==> !Blank(l.chars[k]) && l.chars[k] != 0x0A)
            && (n > 0 ==> Blank(l.chars[n - 1]) || l.chars[n - 1] == 0x0A)
  {
    var m := Back(OverBlanks, l.chars, l.at);
    BackStops(OverBlanks, l.chars, l.at);
    BackStops(OverWord, l.chars, m);
    hide Back;
  }

  /** Home and End go to the ends of the line: past no line end, and to one or to the end of the text. */
  lemma {:induction false} LineKeysStop(l: Line)
    requires Fits(l)
    ensures var n := Apply(l, Home).at;
            && n <= l.at && (forall k :: n <= k < l.at ==> l.chars[k] != 0x0A) && (n > 0 ==> l.chars[n - 1] == 0x0A)
    ensures var n := Apply(l, End).at;
            && l.at <= n <= |l.chars| && (forall k :: l.at <= k < n ==> l.chars[k] != 0x0A)
            && (n < |l.chars| ==> l.chars[n] == 0x0A)
    ensures Apply(l, Home).chars == Apply(l, End).chars == l.chars
  {
    BackStops(ToNewline, l.chars, l.at);
    AheadStops(ToNewline, l.chars, l.at);
    hide Back, Ahead, Bytes, Scalars;
  }

  lemma {:induction false} AheadStops(scan: Scan, chars: seq<nat>, at: nat)
    requires at <= |chars|
    ensures var r := Ahead(scan, chars, at);
            && (forall k :: at <= k < r ==> Passes(scan, chars[k])) && (r < |chars| ==> !Passes(scan, chars[r]))
    decreases |chars| - at
  {
    hide Passes;
    if at < |chars| && Passes(scan, chars[at]) {
      AheadStops(scan, chars, at + 1);
    }
  }

  /** Delete is Right and then Backspace; Left and then Right stays, away from the ends. */
  lemma {:induction false} DeleteIsRightBackspace(l: Line)
    requires Fits(l)
    ensures l.at < |l.chars| ==> Apply(Apply(l, Right), Backspace) == Apply(l, Delete)
    ensures l.at > 0 ==> Apply(Apply(l, Left), Right) == l
  {
  }

  // ----- scanning bytes is scanning characters

  lemma {:induction false} ByteIsLikeCharacter(scan: Scan, cp: nat, j: nat)
    requires IsScalar(cp) && j < |Encode(cp)|
    ensures Passes(scan, Encode(cp)[j] as int) == Passes(scan, cp)
  {
    if cp >= 0x80 {
      AboveAscii(cp, j);
    }
  }

  lemma {:induction false} AboveAscii(cp: nat, j: nat)
    requires IsScalar(cp) && cp >= 0x80 && j < |Encode(cp)|
    ensures Encode(cp)[j] as int >= 0x80
  {
  }

  /** A backward byte scan that stopped at c has stopped where the character scan does. */
  lemma {:induction false} BackAtBoundary(scan: Scan, chars: seq<nat>, at: nat, c: nat)
    requires Scalars(chars) && at <= |chars|
    requires c <= Offset(chars, at) <= |Bytes(chars)|
    requires forall j :: c <= j < Offset(chars, at) ==> Passes(scan, Bytes(chars)[j] as int)
    requires c > 0 ==> !Passes(scan, Bytes(chars)[c - 1] as int)
    ensures c == Offset(chars, Back(scan, chars, at))
    decreases at
  {
    hide *;
    if at == 0 {
      BackFromStart(scan, chars);
    } else {
      BackUnfolds(scan, chars, at);
      if Passes(scan, chars[at - 1]) {
        BackGoesOn(scan, chars, at, c);
        BackAtBoundary(scan, chars, at - 1, c);
      } else {
        BackEndsHere(scan, chars, at, c);
      }
    }
  }

  lemma {:induction false} BackFromStart(scan: Scan, chars: seq<nat>)
    requires Scalars(chars)
    ensures Offset(chars, 0) == 0 && Back(scan, chars, 0) == 0
  {
    hide IsScalar, Encode;
    assert chars[..0] == [];
  }

  lemma {:induction false} BackUnfolds(scan: Scan, chars: seq<nat>, at: nat)
    requires 0 < at <= |chars|
    ensures Back(scan, chars, at) == if Passes(scan, chars[at - 1]) then Back(scan, chars, at - 1) else at
  {
    hide Passes;
  }

  /** The bytes of a character that passes all pass, so that the scan goes on to where it begins. */
  lemma {:induction false} BackGoesOn(scan: Scan, chars: seq<nat>, at: nat, c: nat)
    requires Scalars(chars) && 0 < at <= |chars| && Passes(scan, chars[at - 1])
    requires c <= Offset(chars, at) <= |Bytes(chars)|
    requires c > 0 ==> !Passes(scan, Bytes(chars)[c - 1] as int)
    ensures c <= Offset(chars, at - 1) <= Offset(chars, at)
  {
    hide *;
    CharacterAt(chars, at - 1);
    if c > Offset(chars, at - 1) {
      ByteOfCharacter(scan, chars, at - 1, c - 1);
    }
  }

  lemma {:induction false} BackEndsHere(scan: Scan, chars: seq<nat>, at: nat, c: nat)
    requires Scalars(chars) && 0 < at <= |chars| && !Passes(scan, chars[at - 1])
    requires c <= Offset(chars, at) <= |Bytes(chars)|
    requires forall j :: c <= j < Offset(chars, at) ==> Passes(scan, Bytes(chars)[j] as int)
    ensures c == Offset(chars, at)
  {
    hide *;
    CharacterAt(chars, at - 1);
    ByteOfCharacter(scan, chars, at - 1, Offset(chars, at) - 1);
  }

  lemma {:induction false} ByteOfCharacter(scan: Scan, chars: seq<nat>, k: nat, j: nat)
    requires Scalars(chars) && k < |chars| && Offset(chars, k) <= j < Offset(chars, k + 1)
    ensures j < |Bytes(chars)|
    ensures Passes(scan, Bytes(chars)[j] as int) == Passes(scan, chars[k])
  {
    hide Encode, IsScalar, Passes, Bytes, Offset;
    CharacterAt(chars, k);
    var p := Offset(chars, k);
    assert Bytes(chars)[p..Offset(chars, k + 1)][j - p] == Bytes(chars)[j];
    ByteIsLikeCharacter(scan, chars[k], j - p);
  }

  lemma {:induction false} OffsetOfAll(chars: seq<nat>)
    requires Scalars(chars)
    ensures Offset(chars, |chars|) == |Bytes(chars)|
  {
    hide Bytes, IsScalar;
    assert chars[..|chars|] == chars;
  }

  lemma {:induction false} AheadAtBoundary(scan: Scan, chars: seq<nat>, at: nat, c: nat)
    requires Scalars(chars) && at <= |chars|
    requires Offset(chars, at) <= c <= |Bytes(chars)|
    requires forall j :: Offset(chars, at) <= j < c ==> Passes(scan, Bytes(chars)[j] as int)
    requires c < |Bytes(chars)| ==> !Passes(scan, Bytes(chars)[c] as int)
    ensures c == Offset(chars, Ahead(scan, chars, at))
    decreases |chars| - at
  {
    hide Encode, IsScalar, Passes, Bytes, Offset;
    if at == |chars| {
      OffsetOfAll(chars);
    } else {
      var (p, q) := (Offset(chars, at), Offset(chars, at + 1));
      CharacterAt(chars, at);
      if Passes(scan, chars[at]) {
        if c < q {
          ByteOfCharacter(scan, chars, at, c);
        } else {
          AheadAtBoundary(scan, chars, at + 1, c);
        }
      } else {
        ByteOfCharacter(scan, chars, at, p);
      }
    }
  }

  // ----- the byte buffer

  lemma {:induction false} FitsIsScalars(l: Line)
    requires Fits(l)
    ensures Scalars(l.chars) && l.at <= |l.chars|
    ensures |Bytes(l.chars)| < CAP - 1
    ensures Offset(l.chars, l.at) <= |Bytes(l.chars)|
  {
    OffsetSplits(l.chars, l.at);
  }

  /** The cursor is at an end of the bytes exactly when it is at that end of the text. */
  lemma {:induction false} CursorEnds(l: Line)
    requires Fits(l)
    ensures Offset(l.chars, l.at) == 0 <==> l.at == 0
    ensures Offset(l.chars, l.at) == |Bytes(l.chars)| <==> l.at == |l.chars|
  {
    hide Offset, Bytes;
    OffsetOfAll(l.chars);
    NothingBefore(l.chars);
    if l.at > 0 {
      CharacterAt(l.chars, l.at - 1);
    }
    if l.at < |l.chars| {
      CharacterAt(l.chars, l.at);
    }
  }

  lemma {:induction false} NothingBefore(chars: seq<nat>)
    requires Scalars(chars)
    ensures Offset(chars, 0) == 0
  {
    hide IsScalar;
    assert chars[..0] == [];
  }

  lemma {:induction false} CutFits(l: Line, from: nat)
    requires Fits(l) && from <= l.at
    ensures var m := Cut(l, from); var (i, j) := (Offset(l.chars, from), Offset(l.chars, l.at));
            && Fits(m) && i <= j <= |Bytes(l.chars)| && Offset(m.chars, m.at) == i
            && Bytes(m.chars) == Bytes(l.chars)[..i] + Bytes(l.chars)[j..]
  {
    hide Bytes, Offset, Scalars;
    BytesWithout(l.chars, from, l.at);
  }

  lemma {:induction false} DeleteAtEnd(l: Line)
    requires Fits(l) && l.at == |l.chars|
    ensures Apply(l, Delete) == l
  {
  }

  lemma {:induction false} DeleteFits(l: Line)
    requires Fits(l) && l.at < |l.chars|
    ensures var m := Apply(l, Delete); var (i, j) := (Offset(l.chars, l.at), Offset(l.chars, l.at + 1));
            && Fits(m) && i <= j <= |Bytes(l.chars)| && Offset(m.chars, m.at) == i
            && Bytes(m.chars) == Bytes(l.chars)[..i] + Bytes(l.chars)[j..]
  {
    hide Bytes, Offset, Scalars;
    BytesWithout(l.chars, l.at, l.at + 1);
  }

  /** memmove inside one buffer, as a value. */
  function Moved(b: seq<Octet>, to: nat, from: nat, n: nat): seq<Octet>
    requires to + n <= |b| && from + n <= |b|
  {
    b[..to] + b[from..from + n] + b[to + n..]
  }

  method MoveBytes(b: array<Octet>, to: nat, from: nat, n: nat)
    requires to + n <= b.Length && from + n <= b.Length
    modifies b
    ensures b[..] == Moved(old(b[..]), to, from, n)
  {
    forall i | 0 <= i < n {
      b[to + i] := b[from + i];
    }
  }

  function Copied(b: seq<Octet>, to: nat, s: seq<Octet>): seq<Octet>
    requires to + |s| <= |b|
  {
    b[..to] + s + b[to + |s|..]
  }

  /** memcpy from elsewhere. */
  method CopyBytes(b: array<Octet>, to: nat, s: seq<Octet>)
    requires to + |s| <= b.Length
    modifies b
    ensures b[..] == Copied(old(b[..]), to, s)
  {
    forall i | 0 <= i < |s| {
      b[to + i] := s[i];
    }
  }

  lemma {:induction false} MovedUp(b: seq<Octet>, cur: nat, len: nat, s: seq<Octet>)
    requires cur <= len && len + |s| <= |b|
    ensures Copied(Moved(b, cur + |s|, cur, len - cur), cur, s)[..len + |s|] == b[..len][..cur] + s + b[..len][cur..]
  {
  }

  lemma {:induction false} MovedDown(b: seq<Octet>, start: nat, end: nat, len: nat)
    requires start <= end <= len <= |b|
    ensures Moved(b, start, end, len - end)[..len - (end - start)] == b[..len][..start] + b[..len][end..]
  {
  }

  lemma {:induction false} StopsAtBoundary(chars: seq<nat>, at: nat, end: nat)
    requires Scalars(chars) && at < |chars| && Offset(chars, at) < end <= Offset(chars, at + 1)
    ensures Offset(chars, at + 1) <= |Bytes(chars)|
    ensures end < |Bytes(chars)| ==> (IsContinuation(Bytes(chars)[end]) <==> end < Offset(chars, at + 1))
  {
    hide Offset, Bytes, IsContinuation, Encode, IsScalar;
    CharacterAt(chars, at);
    if at + 1 < |chars| {
      CharacterAt(chars, at + 1);
    } else {
      OffsetOfAll(chars);
    }
  }

  class Editor {
    const buf: array<Octet>
    var len: nat
    var cur: nat
    /** The text that the bytes stand for. */
    ghost var line: Line

    ghost predicate Valid()
      reads this, buf
    {
      && buf.Length == CAP && Fits(line)
      && len == |Bytes(line.chars)| && cur == Offset(line.chars, line.at) <= len
      && buf[..len] == Bytes(line.chars) && buf[len] == '\0'
    }

    constructor ()
      ensures Valid() && fresh(buf) && line == Line([], 0)
    {
      buf := new Octet[CAP](_ => '\0');
      len, cur := 0, 0;
      line := Line([], 0);
    }

    method ScanBack(scan: Scan, from: nat, ghost at: nat) returns (c: nat)
      requires Valid() && at <= |line.chars| && from == Offset(line.chars, at) <= len
      ensures c == Offset(line.chars, Back(scan, line.chars, at)) <= from
    {
      hide Fits, Offset, Bytes, Back, Passes;
      FitsIsScalars(line);
      c := from;
      while c > 0 && Passes(scan, buf[c - 1] as int)
        invariant c <= from
        invariant forall j :: c <= j < from ==> Passes(scan, buf[j] as int)
      {
        c := c - 1;
      }
      ghost var b := Bytes(line.chars);
      assert forall j :: 0 <= j < len ==> b[j] == buf[..len][j] == buf[j];
      BackAtBoundary(scan, line.chars, at, c);
    }

    method ScanAhead(scan: Scan) returns (c: nat)
      requires Valid()
      ensures c == Offset(line.chars, Ahead(scan, line.chars, line.at)) <= len
    {
      hide Fits, Offset, Bytes, Ahead, Passes;
      FitsIsScalars(line);
      c := cur;
      while c < len && Passes(scan, buf[c] as int)
        invariant cur <= c <= len
        invariant forall j :: cur <= j < c ==> Passes(scan, buf[j] as int)
      {
        c := c + 1;
      }
      ghost var b := Bytes(line.chars);
      assert forall j :: 0 <= j < len ==> b[j] == buf[..len][j] == buf[j];
      AheadAtBoundary(scan, line.chars, line.at, c);
    }

    /** Where the character before the cursor begins. */
    method Previous() returns (start: nat)
      requires Valid() && cur > 0
      ensures line.at > 0 && start == Offset(line.chars, line.at - 1) < cur
    {
      hide Fits, Offset, Bytes, IsContinuation;
      FitsIsScalars(line);
      CursorEnds(line);
      CharacterAt(line.chars, line.at - 1);
      ghost var b := Bytes(line.chars);
      assert forall j :: 0 <= j < len ==> b[j] == buf[..len][j] == buf[j];
      start := cur - 1;
      while start > 0 && IsContinuation(buf[start])
        invariant Offset(line.chars, line.at - 1) <= start < cur
      {
        start := start - 1;
      }
    }

    /** Where the character at the cursor ends. */
    method Next() returns (end: nat)
      requires Valid() && cur < len
      ensures line.at < |line.chars| && end == Offset(line.chars, line.at + 1) && cur < end <= len
    {
      hide Fits, Offset, Bytes, IsContinuation, Scalars;
      FitsIsScalars(line);
      CursorEnds(line);
      CharacterAt(line.chars, line.at);
      ghost var stop := Offset(line.chars, line.at + 1);
      end := cur + 1;
      while end < len && IsContinuation(buf[end])
        invariant cur < end <= stop <= len
      {
        StopsAtBoundary(line.chars, line.at, end);
        assert buf[end] == buf[..len][end];
        end := end + 1;
      }
      assert end < len ==> buf[end] == buf[..len][end];
      StopsAtBoundary(line.chars, line.at, end);
    }

    method InsertBytes(s: seq<Octet>, ghost xs: seq<nat>)
      requires Valid() && Scalars(xs) && s == Bytes(xs)
      modifies this, buf
      ensures Valid() && line == Apply(old(line), Insert(xs))
    {
      hide Fits, Offset, Bytes, Inserted, Scalars, Moved, Copied;
      if len + |s| >= CAP - 1 {
        return;
      }
      FitsIsScalars(line);
      BytesInserted(line, xs);
      ApplyFits(line, Insert(xs));
      MovedUp(buf[..], cur, len, s);
      MoveBytes(buf, cur + |s|, cur, len - cur);
      CopyBytes(buf, cur, s);
      len := len + |s|;
      cur := cur + |s|;
      line := Inserted(line, xs);
      ghost var text := buf[..len];
      buf[len] := '\0';
      assert buf[..len] == text;
    }

    /** The bytes from start to the cursor leave the buffer. */
    method CutBytes(start: nat, ghost from: nat)
      requires Valid() && from <= line.at && start == Offset(line.chars, from) <= cur
      modifies this, buf
      ensures Valid() && line == Cut(old(line), from)
    {
      hide Fits, Offset, Bytes, Scalars, Moved, Cut;
      FitsIsScalars(line);
      CutFits(line, from);
      MovedDown(buf[..], start, cur, len);
      MoveBytes(buf, start, cur, len - cur);
      len := len - (cur - start);
      cur := start;
      line := Cut(line, from);
      ghost var text := buf[..len];
      buf[len] := '\0';
      assert buf[..len] == text;
    }

    method Bs()
      requires Valid()
      modifies this, buf
      ensures Valid() && line == Apply(old(line), Backspace)
    {
      hide Fits, Offset, Bytes, Scalars, Cut;
      FitsIsScalars(line);
      CursorEnds(line);
      if cur == 0 {
        return;
      }
      var start := Previous();
      CutBytes(start, line.at - 1);
    }

    method Del()
      requires Valid()
      modifies this, buf
      ensures Valid() && line == Apply(old(line), Delete)
    {
      hide Fits, Offset, Bytes, Scalars, Moved, Apply;
      CursorEnds(line);
      if cur >= len {
        DeleteAtEnd(line);
        return;
      }
      var end := Next();
      FitsIsScalars(line);
      DeleteFits(line);
      MovedDown(buf[..], cur, end, len);
      MoveBytes(buf, cur, end, len - end);
      len := len - (end - cur);
      line := Apply(line, Delete);
      ghost var text := buf[..len];
      buf[len] := '\0';
      assert buf[..len] == text;
    }

    method CurLeft()
      requires Valid()
      modifies this
      ensures Valid() && line == Apply(old(line), Left)
    {
      hide Offset, Bytes, Scalars;
      CursorEnds(line);
      if cur == 0 {
        return;
      }
      cur := Previous();
      line := Apply(line, Left);
    }

    method CurRight()
      requires Valid()
      modifies this
      ensures Valid() && line == Apply(old(line), Right)
    {
      hide Offset, Bytes, Scalars;
      CursorEnds(line);
      if cur >= len {
        return;
      }
      cur := Next();
      line := Apply(line, Right);
    }

    method GoHome()
      requires Valid()
      modifies this
      ensures Valid() && line == Apply(old(line), Home)
    {
      hide Offset, Bytes, Scalars, Back;
      cur := ScanBack(ToNewline, cur, line.at);
      line := Apply(line, Home);
    }

    method GoEnd()
      requires Valid()
      modifies this
      ensures Valid() && line == Apply(old(line), End)
    {
      hide Offset, Bytes, Scalars, Ahead;
      cur := ScanAhead(ToNewline);
      line := Apply(line, End);
    }

    method KillToLineStart()
      requires Valid()
      modifies this, buf
      ensures Valid() && line == Apply(old(line), KillLine)
    {
      hide Fits, Offset, Bytes, Scalars, Back, Cut;
      FitsIsScalars(line);
      var ls := ScanBack(ToNewline, cur, line.at);
      CutBytes(ls, Back(ToNewline, line.chars, line.at));
    }

    method KillToWordStart()
      requires Valid()
      modifies this, buf
      ensures Valid() && line == Apply(old(line), KillWord)
    {
      hide Fits, Offset, Bytes, Scalars, Back, Cut;
      FitsIsScalars(line);
      var c2 := ScanBack(OverBlanks, cur, line.at);
      c2 := ScanBack(OverWord, c2, Back(OverBlanks, line.chars, line.at));
      CutBytes(c2, WordStart(line.chars, line.at));
    }

    /** One turn of the key loop, for a key that is no paste and no history step. */
    method Obey(e: Edit)
      requires Valid() && (e.Insert? ==> Scalars(e.xs))
      modifies this, buf
      ensures Valid() && line == Apply(old(line), e)
    {
      match e
      case Insert(xs) => InsertBytes(Bytes(xs), xs);
      case Backspace => Bs();
      case Delete => Del();
      case Left => CurLeft();
      case Right => CurRight();
      case Home => GoHome();
      case End => GoEnd();
      case KillLine => KillToLineStart();
      case KillWord => KillToWordStart();
    }

    /** The key loop: after any run of keys the bytes are those of the edited characters. */
    method Session(es: seq<Edit>)
      requires Valid() && WholeCharacters(es)
      modifies this, buf
      ensures Valid() && line == ApplyAll(old(line), es)
      ensures ReadAll(buf[..len]) == Some(line.chars)
    {
      hide Apply, Fits, Bytes, Offset;
      ghost var start := line;
      ValidFits();
      assert es[..0] == [] && es[..|es|] == es;
      for i := 0 to |es|
        invariant Valid() && line == ApplyAll(start, es[..i])
      {
        assert es[..i + 1][..i] == es[..i];
        Obey(es[i]);
      }
      FitsIsScalars(line);
      BytesAreUtf8(line.chars);
    }

    lemma {:induction false} ValidFits()
      requires Valid()
      ensures Fits(line)
    {
    }
  }
}
