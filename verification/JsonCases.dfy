/** Inputs at which the readers of JSON strings and names do not do what a JSON reader would. */
module JsonCases {
  import opened Options
  import opened CText
  import opened JsonScan
  import opened JsonGrammar
  import opened JsonStrings
  import Splice

  const K: Text := "k"
  const ZEROS: Text := "0000"
  const CUT: seq<Piece> := [Plain('a'), Uni(ZEROS), Plain('b')]

  /** An object of one member without white space. */
  function Single(key: Text, v: Json): Text {
    "{" + RenderMembers(LastMember(Bare(key, v))) + "}"
  }

  lemma {:induction false} SingleIsObject(key: Text, v: Json)
    requires StringBody(key) && WellFormed(v)
    ensures IsObjectText(Single(key, v), [], LastMember(Bare(key, v)))
  {
    hide StringBody, WellFormed, WellFormedMember, RenderMembers, IsObjectText;
    BareWellFormed(key, v);
    assert Blank([]);
    var s := Single(key, v);
    assert [] + "{" + RenderMembers(LastMember(Bare(key, v))) + "}" + [] == s;
    Splice.IsObjectTextOf(s, [], LastMember(Bare(key, v)), []);
  }

  lemma {:induction false} CutPieces()
    ensures ValidPieces(CUT) && Meaning(CUT) == ['a', '\0', 'b'] && StringBody(RenderPieces(CUT))
  {
    assert Number(ZEROS) == 0;
    assert MeaningOf(Uni(ZEROS)) == ['\0'];
    assert CUT[1..] == [Uni(ZEROS), Plain('b')] && CUT[1..][1..] == [Plain('b')] && [Plain('b')][1..] == [];
    assert Meaning([Plain('b')]) == ['b'];
    assert Meaning(CUT[1..]) == ['\0'] + Meaning([Plain('b')]);
    hide RenderPieces, Meaning;
    PiecesAreBody(CUT);
  }


  lemma {:induction false} OnlyValue(key: Text, v: Json)
    ensures Lookup(LastMember(Bare(key, v)), key) == Some((v, |RenderName(Bare(key, v))|))
  {
    hide RenderName;
  }

  lemma {:induction false} CutAtZero()
    ensures CString(['a', '\0', 'b']) == "a"
  {
    assert ['a', '\0', 'b'][1..][0] == '\0';
    assert CString(['a', '\0', 'b']) == ['a'] + CString(['a', '\0', 'b'][1..]);
  }

  /** The string that spells U+0000 in its middle ends there for the caller. */
  lemma {:induction false} ZeroCutsString()
    ensures StringValue(Single(K, Str(RenderPieces(CUT))), K) == Some("a")
  {
    CutPieces();
    CutAtZero();
    Splice.PlainBody(K);
    hide *;
    var v := Str(RenderPieces(CUT));
    SingleIsObject(K, v);
    OnlyValue(K, v);
    StringMemberDecodes(Single(K, v), [], LastMember(Bare(K, v)), K, CUT, |RenderName(Bare(K, v))|);
  }

  const HEX_A: Text := "0061"
  const SPELT_A: seq<Piece> := [Uni(HEX_A)]
  const A: Text := "a"
  const ONE: Json := Atom("1")

  lemma {:induction false} SpeltPieces()
    ensures ValidPieces(SPELT_A) && Meaning(SPELT_A) == A && RenderPieces(SPELT_A) == "\\u0061"
    ensures StringBody(RenderPieces(SPELT_A))
  {
    assert Number(HEX_A) == 0x61;
    assert SPELT_A[1..] == [];
    assert MeaningOf(Uni(HEX_A)) == ['a'];
    assert Meaning(SPELT_A) == ['a'] + [];
    assert RenderPieces(SPELT_A) == ("\\u" + HEX_A) + [];
    hide RenderPieces, Meaning;
    PiecesAreBody(SPELT_A);
  }

  /** The member written with the name \u0061 is not found under the name it means. */
  lemma {:induction false} SpeltNameIsMissed()
    ensures Find(Single(RenderPieces(SPELT_A), ONE), A) == None
  {
    SpeltPieces();
    hide Find, IsObjectText, Single, RenderPieces, SPELT_A, Meaning, StringBody, RenderName;
    var key := RenderPieces(SPELT_A);
    SingleIsObject(key, ONE);
    assert |key| == 6 && |A| == 1;
    LookupInObject(Single(key, ONE), [], LastMember(Bare(key, ONE)), A);
  }
}
