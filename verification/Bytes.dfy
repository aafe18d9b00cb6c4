/** Bytes and the fixed-width integers that container formats print with them. */
module Bytes {

  type byte = b: int | 0 <= b < 256

  /** The bytes of an ASCII text. */
  function Ascii(s: string): (r: seq<byte>)
    requires forall i :: 0 <= i < |s| ==> s[i] as int < 128
    ensures |r| == |s| && forall i :: 0 <= i < |s| ==> r[i] == s[i] as int
  {
    seq(|s|, i requires 0 <= i < |s| => s[i] as int)
  }

  function Be16(n: nat): (r: seq<byte>)
    requires n < 0x1_0000
    ensures |r| == 2 && Be16Value(r) == n
  {
    [n / 256, n % 256]
  }

  function Be16Value(b: seq<byte>): (n: nat)
    requires |b| == 2
    ensures n < 0x1_0000
  {
    (b[0] as int) * 256 + b[1]
  }

  function Le16(n: nat): (r: seq<byte>)
    requires n < 0x1_0000
    ensures |r| == 2 && Le16Value(r) == n
  {
    [n % 256, n / 256]
  }

  function Le16Value(b: seq<byte>): (n: nat)
    requires |b| == 2
    ensures n < 0x1_0000
  {
    (b[1] as int) * 256 + b[0]
  }

  function Be32(n: nat): (r: seq<byte>)
    requires n < 0x1_0000_0000
    ensures |r| == 4 && Be32Value(r) == n
  {
    var r := Be16(n / 0x1_0000) + Be16(n % 0x1_0000);
    assert r[..2] == Be16(n / 0x1_0000) && r[2..] == Be16(n % 0x1_0000);
    r
  }

  function Be32Value(b: seq<byte>): (n: nat)
    requires |b| == 4
    ensures n < 0x1_0000_0000
  {
    Be16Value(b[..2]) * 0x1_0000 + Be16Value(b[2..])
  }

  function Le32(n: nat): (r: seq<byte>)
    requires n < 0x1_0000_0000
    ensures |r| == 4 && Le32Value(r) == n
  {
    var r := Le16(n % 0x1_0000) + Le16(n / 0x1_0000);
    assert r[..2] == Le16(n % 0x1_0000) && r[2..] == Le16(n / 0x1_0000);
    r
  }

  function Le32Value(b: seq<byte>): (n: nat)
    requires |b| == 4
    ensures n < 0x1_0000_0000
  {
    Le16Value(b[2..]) * 0x1_0000 + Le16Value(b[..2])
  }

  lemma Be16OfValue(b: seq<byte>)
    requires |b| == 2
    ensures Be16(Be16Value(b)) == b
  {
  }

  lemma Be32OfValue(b: seq<byte>)
    requires |b| == 4
    ensures Be32(Be32Value(b)) == b
  {
    hide Be16, Be16Value;
    Be16OfValue(b[..2]);
    Be16OfValue(b[2..]);
    assert b == b[..2] + b[2..];
  }

  lemma Le16OfValue(b: seq<byte>)
    requires |b| == 2
    ensures Le16(Le16Value(b)) == b
  {
  }

  lemma Le32OfValue(b: seq<byte>)
    requires |b| == 4
    ensures Le32(Le32Value(b)) == b
  {
    hide Le16, Le16Value;
    Le16OfValue(b[..2]);
    Le16OfValue(b[2..]);
    assert b == b[..2] + b[2..];
  }

  /** The most significant byte comes first in a big-endian number, and last in a little-endian one. */
  lemma ByteOrder(b: byte)
    ensures Be16Value([b, 0]) == 0x100 * b && Be32Value([b, 0, 0, 0]) == 0x100_0000 * b
    ensures Le16Value([0, b]) == 0x100 * b && Le32Value([0, 0, 0, b]) == 0x100_0000 * b
  {
    assert [b, 0, 0, 0][..2] == [b, 0] && [b, 0, 0, 0][2..] == [0, 0];
    assert [0, 0, 0, b][..2] == [0, 0] && [0, 0, 0, b][2..] == [0, b];
  }

  /** Reading off the front of what is left of `data`. */
  lemma Reads(data: seq<byte>, from: nat, head: seq<byte>, rest: seq<byte>)
    requires from <= |data| && data[from..] == head + rest
    ensures from + |head| <= |data|
    ensures data[from..from + |head|] == head && data[from + |head|..] == rest
  {
    var tail := data[from..];
    assert data[from..from + |head|] == tail[..|head|];
    assert data[from + |head|..] == tail[|head|..];
  }
}
