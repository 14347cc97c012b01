/** C strings and the growable byte buffer. */
module CText {

  /** One byte. */
  type Octet = c: char | c as int < 256

  /** One byte of a C string: anything but the terminator. */
  type Byte = c: char | 0 < c as int < 256 witness 'a'

  /** A C string without its terminator; a pointer into it is an index, or the suffix it points at. */
  type Text = seq<Byte>

  /** isspace in the C locale. */
  predicate IsSpace(c: char) {
    c == ' ' || '\t' <= c <= '\r'
  }

  predicate AllDigits(t: Text) {
    forall k :: 0 <= k < |t| ==> '0' <= t[k] <= '9'
  }

  /** What a C string function sees of a byte sequence: the bytes before the first zero. */
  function CString(s: seq<Octet>): (r: Text)
    ensures r <= s
    ensures |r| < |s| ==> s[|r|] == '\0'
  {
    if s == [] || s[0] == '\0' then [] else [s[0]] + CString(s[1..])
  }

  lemma {:induction false} NoZeroIsWhole(s: seq<Octet>)
    ensures CString(s) == s <==> '\0' !in s
  {
    var r := CString(s);
    if |r| == |s| {
      forall k | 0 <= k < |s| ensures s[k] != '\0' {
        assert s[k] == r[k];
      }
    }
  }

  const INITIAL_CAP := 4096

  /** buf_t: bytes, their number, and always a terminator after them. */
  class Buf {
    var data: array<Octet>
    var len: nat

    ghost predicate Valid()
      reads this, data
    {
      len < data.Length && data[len] == '\0'
    }

    ghost function Contents(): seq<Octet>
      reads this, data
      requires Valid()
    {
      data[..len]
    }

    constructor ()
      ensures Valid() && fresh(data) && Contents() == []
    {
      data := new Octet[INITIAL_CAP](_ => '\0');
      len := 0;
    }

    /** Room for need more bytes and the terminator, by doubling. */
    method Grow(need: nat)
      requires Valid()
      modifies this`data
      ensures Valid() && (data == old(data) || fresh(data))
      ensures data.Length > len + need
      ensures Contents() == old(Contents())
    {
      if len + need + 1 <= data.Length {
        return;
      }
      var small, n, cap := data, len, data.Length;
      while cap < n + need + 1
        invariant cap >= small.Length
      {
        cap := cap * 2;
      }
      var bigger := new Octet[cap](_ => '\0');
      for i := 0 to n
        invariant bigger[..i] == small[..i]
        invariant forall k :: i <= k < cap ==> bigger[k] == '\0'
      {
        bigger[i] := small[i];
      }
      data := bigger;
    }

    method Append(s: seq<Octet>)
      requires Valid()
      modifies this, data
      ensures Valid() && (data == old(data) || fresh(data))
      ensures Contents() == old(Contents()) + s
    {
      Grow(|s|);
      var d, n := data, len;
      ghost var before := d[..n];
      for i := 0 to |s|
        invariant data == d && len == n
        invariant d[..n] == before && d[n..n + i] == s[..i]
      {
        d[n + i] := s[i];
      }
      len := n + |s|;
      d[len] := '\0';
      assert d[..len] == before + s;
    }

    method Char(c: Octet)
      requires Valid()
      modifies this, data
      ensures Valid() && (data == old(data) || fresh(data))
      ensures Contents() == old(Contents()) + [c]
    {
      Grow(1);
      data[len] := c;
      len := len + 1;
      data[len] := '\0';
    }

    /** The bytes, as a value. */
    method Bytes() returns (bytes: seq<Octet>)
      requires Valid()
      ensures bytes == Contents()
    {
      bytes := data[..len];
    }

    method Reset()
      requires Valid()
      modifies this, data
      ensures Valid() && data == old(data) && Contents() == []
    {
      len := 0;
      data[0] := '\0';
    }
  }
}
