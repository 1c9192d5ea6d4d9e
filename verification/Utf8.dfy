/** Python's strict UTF-8 and ASCII decoders (section 3 of RFC 3629), as far as frames need them. */
module Utf8 {
  import opened Prelude

  predicate IsTail(b: Byte) { 0x80 <= b < 0xC0 }

  predicate IsScalar(v: int) { 0 <= v < 0xD800 || 0xE000 <= v < 0x11_0000 }

  /** The payload bits of a byte after its marker. */
  function Bits(b: Byte, marker: int): int { b - marker }

  /** The first scalar value of a byte string and its width. */
  function First(b: Raw): (r: Option<(int, nat)>)
    ensures r.Some? ==> IsScalar(r.value.0) && 1 <= r.value.1 <= |b|
  {
    if b == [] then None
    else if b[0] < 0x80 then Some((b[0], 1))
    else if 0xC2 <= b[0] < 0xE0 && |b| >= 2 && IsTail(b[1]) then
      Some((Bits(b[0], 0xC0) * 64 + Bits(b[1], 0x80), 2))
    else if 0xE0 <= b[0] < 0xF0 && |b| >= 3 && IsTail(b[1]) && IsTail(b[2]) then
      var v := Bits(b[0], 0xE0) * 4096 + Bits(b[1], 0x80) * 64 + Bits(b[2], 0x80);
      if v >= 0x800 && IsScalar(v) then Some((v, 3)) else None
    else if 0xF0 <= b[0] < 0xF5 && |b| >= 4 && IsTail(b[1]) && IsTail(b[2]) && IsTail(b[3]) then
      var v := Bits(b[0], 0xF0) * 262144 + Bits(b[1], 0x80) * 4096 + Bits(b[2], 0x80) * 64 + Bits(b[3], 0x80);
      if v >= 0x1_0000 && IsScalar(v) then Some((v, 4)) else None
    else None
  }

  /** bytes.decode("utf-8"); None stands for UnicodeDecodeError. */
  function Decode(b: Raw): Option<string>
    decreases |b|
  {
    if b == [] then Some("")
    else
      var first := First(b);
      if first.None? then None
      else
        var rest := Decode(b[first.value.1..]);
        if rest.None? then None else Some([first.value.0 as char] + rest.value)
  }

  predicate IsAscii(b: Raw) { forall i :: 0 <= i < |b| ==> b[i] < 0x80 }

  predicate IsAsciiText(t: string) { forall i :: 0 <= i < |t| ==> t[i] as int < 0x80 }

  function Char(b: Byte): char
    requires b < 0x80
  {
    b as char
  }

  function Text(b: Raw): (t: string)
    requires IsAscii(b)
    ensures |t| == |b| && IsAsciiText(t)
  {
    seq(|b|, i requires 0 <= i < |b| => Char(b[i]))
  }

  /** bytes.decode("ascii") */
  function DecodeAscii(b: Raw): Option<string> { if IsAscii(b) then Some(Text(b)) else None }

  /** str.encode("ascii"), for ASCII text. */
  function Bytes(t: string): (b: Raw)
    requires IsAsciiText(t)
    ensures |b| == |t| && IsAscii(b)
  {
    seq(|t|, i requires 0 <= i < |t| => t[i] as int)
  }

  lemma TextOfBytes(t: string)
    requires IsAsciiText(t)
    ensures Text(Bytes(t)) == t
  {
  }

  /** An ASCII prefix decodes to itself and leaves the rest alone. */
  lemma {:induction false} DecodeAsciiPrefix(a: Raw, b: Raw)
    requires IsAscii(a)
    ensures Decode(a + b) == if Decode(b).None? then None else Some(Text(a) + Decode(b).value)
    decreases |a|
  {
    if a == [] {
      assert a + b == b;
      if Decode(b).Some? { assert Text(a) + Decode(b).value == Decode(b).value; }
    } else {
      assert (a + b)[1..] == a[1..] + b;
      DecodeAsciiPrefix(a[1..], b);
      assert First(a + b) == Some((a[0], 1));
      assert Text(a) == [Char(a[0])] + Text(a[1..]);
      hide First;
      if Decode(b).Some? {
        assert [Char(a[0])] + (Text(a[1..]) + Decode(b).value) == Text(a) + Decode(b).value;
      }
    }
  }

  lemma DecodeBytes(t: string)
    requires IsAsciiText(t)
    ensures Decode(Bytes(t)) == Some(t)
  {
    DecodeAsciiPrefix(Bytes(t), []);
    assert Bytes(t) + [] == Bytes(t);
    TextOfBytes(t);
    assert t + "" == t;
  }
}
