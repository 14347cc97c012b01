/** The JSON field extraction of the client: a value skipper that counts depth, and object lookup.
    The functions say where a pointer that starts at index i ends up; the methods are the loops. */
module JsonScan {
  import opened Options
  import opened CText

  /** Past white space. */
  function Skip(s: Text, i: nat): (r: nat)
    requires i <= |s|
    ensures i <= r <= |s|
    ensures r < |s| ==> !IsSpace(s[r])
    decreases |s| - i
  {
    if i < |s| && IsSpace(s[i]) then Skip(s, i + 1) else i
  }

  /** From inside a string literal to its closing quote, or to the end of the text. */
  function SkipString(s: Text, i: nat): (r: nat)
    requires i <= |s|
    ensures i <= r <= |s|
    ensures r < |s| ==> s[r] == '"'
    decreases |s| - i
  {
    if i == |s| || s[i] == '"' then i
    else if s[i] == '\\' && i + 2 <= |s| then SkipString(s, i + 2)
    else SkipString(s, i + 1)
  }

  /** Past one byte c, when it is there. */
  function Past(s: Text, i: nat, c: Byte): (r: nat)
    requires i <= |s|
    ensures i <= r <= |s|
  {
    if i < |s| && s[i] == c then i + 1 else i
  }

  predicate IsOpen(c: char) { c == '{' || c == '[' }

  predicate IsClose(c: char) { c == '}' || c == ']' }

  /** A counter of open brackets: of both kinds, or of braces alone. */
  predicate Opens(c: char, square: bool) { c == '{' || (square && c == '[') }

  predicate Closes(c: char, square: bool) { c == '}' || (square && c == ']') }

  /** The depth-counting loop, passing over strings: where it stops, and at what depth. */
  function Count(s: Text, i: nat, depth: nat, square: bool): (r: (nat, nat))
    requires i <= |s|
    ensures i <= r.0 <= |s|
    decreases |s| - i
  {
    if i == |s| || depth == 0 then (i, depth)
    else if s[i] == '"' then Count(s, Past(s, SkipString(s, i + 1), '"'), depth, square)
    else if Opens(s[i], square) then Count(s, i + 1, depth + 1, square)
    else if Closes(s[i], square) then Count(s, i + 1, depth - 1, square)
    else Count(s, i + 1, depth, square)
  }

  predicate EndsAtom(c: char) {
    c == ',' || c == '}' || c == ']' || IsSpace(c)
  }

  function SkipAtom(s: Text, i: nat): (r: nat)
    requires i <= |s|
    ensures i <= r <= |s|
    decreases |s| - i
  {
    if i < |s| && !EndsAtom(s[i]) then SkipAtom(s, i + 1) else i
  }

  function SkipValue(s: Text, i: nat): (r: nat)
    requires i <= |s|
    ensures i <= r <= |s|
  {
    var p := Skip(s, i);
    if p == |s| then p
    else if s[p] == '"' then Past(s, SkipString(s, p + 1), '"')
    else if IsOpen(s[p]) then Count(s, p + 1, 1, true).0
    else SkipAtom(s, p)
  }

  /** Where the value begins that follows a member name ending at i. */
  function ValueAfter(s: Text, i: nat): (r: nat)
    requires i <= |s|
    ensures i <= r <= |s|
  {
    Skip(s, Past(s, Skip(s, Past(s, i, '"')), ':'))
  }

  /** Where the turn of the member loop ends that has passed over the value at i. */
  function NextMember(s: Text, i: nat): (r: nat)
    requires i <= |s|
    ensures i <= r <= |s|
  {
    Past(s, Skip(s, SkipValue(s, i)), ',')
  }

  /** The member loop: where the value of the first member named key begins. */
  function FindMember(s: Text, i: nat, key: Text): (r: Option<nat>)
    requires i <= |s|
    ensures r.Some? ==> i <= r.value <= |s|
    decreases |s| - i
  {
    var p := Skip(s, i);
    if p == |s| || s[p] != '"' then None
    else
      var q := SkipString(s, p + 1);
      if s[p + 1..q] == key then Some(ValueAfter(s, q))
      else FindMember(s, NextMember(s, ValueAfter(s, q)), key)
  }

  /** One turn of the member loop. */
  lemma {:induction false} FindMemberTurn(s: Text, i: nat, key: Text)
    requires i <= |s|
    ensures var p := Skip(s, i);
            && (p == |s| || s[p] != '"' ==> FindMember(s, i, key) == None)
            && (p < |s| && s[p] == '"' ==>
                  var q := SkipString(s, p + 1);
                  FindMember(s, i, key) == if s[p + 1..q] == key then Some(ValueAfter(s, q))
                                           else FindMember(s, NextMember(s, ValueAfter(s, q)), key))
  {
    hide Skip, SkipString, SkipValue, ValueAfter, NextMember;
  }

  function Find(s: Text, key: Text): (r: Option<nat>)
    ensures r.Some? ==> r.value <= |s|
  {
    var p := Skip(s, 0);
    if p == |s| || s[p] != '{' then None else FindMember(s, p + 1, key)
  }

  /** jraw: the text of the value. */
  function Raw(s: Text, key: Text): Option<Text> {
    match Find(s, key)
    case None => None
    case Some(v) => Some(s[v..SkipValue(s, v)])
  }

  // ----- the loops

  /** The scanners step over the byte after a backslash, so the text must have one. */
  predicate EscapesClosed(s: Text) {
    s == [] || s[|s| - 1] != '\\'
  }

  /** Lookup scans strings only in a text that opens an object. */
  predicate ScanSafe(s: Text) {
    EscapesClosed(s) || Skip(s, 0) == |s| || s[Skip(s, 0)] != '{'
  }

  method ScanSpace(s: Text, p0: nat) returns (p: nat)
    requires p0 <= |s|
    ensures p == Skip(s, p0)
  {
    p := p0;
    while p < |s| && IsSpace(s[p])
      invariant p <= |s| && Skip(s, p) == Skip(s, p0)
    {
      p := p + 1;
    }
  }

  method ScanString(s: Text, p0: nat) returns (p: nat)
    requires p0 <= |s| && EscapesClosed(s)
    ensures p == SkipString(s, p0)
  {
    p := p0;
    while p < |s| && s[p] != '"'
      invariant p <= |s| && SkipString(s, p) == SkipString(s, p0)
      decreases |s| - p
    {
      if s[p] == '\\' {
        p := p + 1;
      }
      p := p + 1;
    }
  }

  method JskipValue(s: Text, p0: nat) returns (p: nat)
    requires p0 <= |s| && EscapesClosed(s)
    ensures p == SkipValue(s, p0)
  {
    p := ScanSpace(s, p0);
    if p < |s| && s[p] == '"' {
      p := ScanString(s, p + 1);
      if p < |s| && s[p] == '"' {
        p := p + 1;
      }
      return;
    }
    if p < |s| && (s[p] == '{' || s[p] == '[') {
      var open := s[p];
      var close := if open == '{' then '}' else ']';
      var depth: nat := 1;
      p := p + 1;
      ghost var inside := p;
      while p < |s| && depth > 0
        invariant p <= |s| && Count(s, p, depth, true) == Count(s, inside, 1, true)
        decreases |s| - p
      {
        if s[p] == '"' {
          p := ScanString(s, p + 1);
          if p < |s| {
            p := p + 1;
          }
        } else if s[p] == open || s[p] == '{' || s[p] == '[' {
          depth := depth + 1;
          p := p + 1;
        } else if s[p] == close || s[p] == '}' || s[p] == ']' {
          depth := depth - 1;
          p := p + 1;
        } else {
          p := p + 1;
        }
      }
      return;
    }
    ghost var start := p;
    while p < |s| && s[p] != ',' && s[p] != '}' && s[p] != ']' && !IsSpace(s[p])
      invariant p <= |s| && SkipAtom(s, p) == SkipAtom(s, start)
    {
      p := p + 1;
    }
  }

  method ScanToValue(s: Text, p0: nat) returns (p: nat)
    requires p0 <= |s| && EscapesClosed(s)
    ensures p == ValueAfter(s, p0)
  {
    p := p0;
    if p < |s| && s[p] == '"' {
      p := p + 1;
    }
    p := ScanSpace(s, p);
    if p < |s| && s[p] == ':' {
      p := p + 1;
    }
    p := ScanSpace(s, p);
  }

  method ScanToNextMember(s: Text, p0: nat) returns (p: nat)
    requires p0 <= |s| && EscapesClosed(s)
    ensures p == NextMember(s, p0)
  {
    p := JskipValue(s, p0);
    p := ScanSpace(s, p);
    if p < |s| && s[p] == ',' {
      p := p + 1;
    }
  }

  method Jfind(s: Text, key: Text) returns (r: Option<nat>)
    requires ScanSafe(s)
    ensures r == Find(s, key)
  {
    hide Skip, SkipString, SkipValue, FindMember, ValueAfter, NextMember, EscapesClosed;
    var p := ScanSpace(s, 0);
    if p == |s| || s[p] != '{' {
      return None;
    }
    p := p + 1;
    while p < |s|
      invariant p <= |s| && FindMember(s, p, key) == Find(s, key)
      decreases |s| - p
    {
      FindMemberTurn(s, p, key);
      p := ScanSpace(s, p);
      if p < |s| && s[p] == '}' {
        return None;
      }
      if p == |s| || s[p] != '"' {
        return None;
      }
      p := p + 1;
      var ks := p;
      p := ScanString(s, p);
      var klen := p - ks;
      p := ScanToValue(s, p);
      if klen == |key| && s[ks..ks + klen] == key {
        return Some(p);
      }
      p := ScanToNextMember(s, p);
    }
    FindMemberTurn(s, p, key);
    return None;
  }

  method Jraw(s: Text, key: Text) returns (r: Option<Text>)
    requires ScanSafe(s)
    ensures r == Raw(s, key)
  {
    var v := Jfind(s, key);
    if v.None? {
      return None;
    }
    var end := JskipValue(s, v.value);
    return Some(s[v.value..end]);
  }

  lemma {:induction false} CountEndsAtClose(s: Text, i: nat, d: nat, square: bool)
    requires i <= |s| && d > 0
    ensures var (e, f) := Count(s, i, d, square);
            (f == 0 ==> i < e && Closes(s[e - 1], square)) && (f > 0 ==> e == |s|)
    decreases |s| - i
  {
    if i < |s| {
      hide SkipString;
      if s[i] == '"' {
        CountEndsAtClose(s, Past(s, SkipString(s, i + 1), '"'), d, square);
      } else if Opens(s[i], square) {
        CountEndsAtClose(s, i + 1, d + 1, square);
      } else if Closes(s[i], square) {
        if d > 1 {
          CountEndsAtClose(s, i + 1, d - 1, square);
        } else {
          assert Count(s, i + 1, 0, square) == (i + 1, 0);
        }
      } else {
        CountEndsAtClose(s, i + 1, d, square);
      }
    }
  }

  lemma {:induction false} FoundIsNoSpace(s: Text, i: nat, key: Text)
    requires i <= |s|
    ensures var r := FindMember(s, i, key); r.Some? && r.value < |s| ==> !IsSpace(s[r.value])
    decreases |s| - i
  {
    FindMemberTurn(s, i, key);
    hide Skip, SkipString, SkipValue, FindMember;
    var p := Skip(s, i);
    if p < |s| && s[p] == '"' {
      var q := SkipString(s, p + 1);
      FoundIsNoSpace(s, NextMember(s, ValueAfter(s, q)), key);
    }
  }

  /** A value is free of a dangling backslash, or is no object. */
  lemma {:induction false} ValueIsSafe(s: Text, v: nat, e: nat)
    requires EscapesClosed(s) && v < e <= |s| && !IsSpace(s[v])
    requires s[v] == '{' ==> e == |s| || Closes(s[e - 1], true)
    ensures ScanSafe(s[v..e])
  {
    var r := s[v..e];
    assert r[0] == s[v] && r[|r| - 1] == s[e - 1];
    assert Skip(r, 0) == 0;
  }

  lemma {:induction false} ObjectValueEnds(s: Text, v: nat)
    requires v < |s| && s[v] == '{'
    ensures var e := SkipValue(s, v); e > v && (e == |s| || Closes(s[e - 1], true))
  {
    hide Count;
    assert Skip(s, v) == v;
    CountEndsAtClose(s, v + 1, 1, true);
  }

  /** The text of a value that lookup found can be searched in turn. */
  lemma {:induction false} RawIsSafe(s: Text, key: Text)
    requires EscapesClosed(s) && Raw(s, key).Some?
    ensures ScanSafe(Raw(s, key).value)
  {
    hide Skip, FindMember, SkipValue, EscapesClosed, ScanSafe;
    var v := Find(s, key).value;
    FoundIsNoSpace(s, Skip(s, 0) + 1, key);
    var e := SkipValue(s, v);
    if v == e {
      NothingIsSafe(s[v..e]);
    } else {
      if s[v] == '{' {
        ObjectValueEnds(s, v);
      }
      ValueIsSafe(s, v, e);
    }
  }

  lemma {:induction false} NothingIsSafe(s: Text)
    requires s == []
    ensures ScanSafe(s)
  {
  }
}
