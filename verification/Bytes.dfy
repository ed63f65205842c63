/** Bytes and little-endian integers. */
module Bytes {
  import opened Checked
  import opened Arith

  type Byte = b: nat | b < 256

  function ToLe(n: nat, width: nat): (bytes: seq<Byte>)
    ensures |bytes| == width
  {
    if width == 0 then [] else [n % 256] + ToLe(n / 256, width - 1)
  }

  function FromLe(bytes: seq<Byte>): nat {
    if bytes == [] then 0 else bytes[0] + 256 * FromLe(bytes[1..])
  }

  /** A number that fits is recovered from its bytes. */
  lemma {:induction false} NumberRoundTrip(n: nat, width: nat)
    requires n < Pow(256, width)
    ensures FromLe(ToLe(n, width)) == n
  {
    if width > 0 {
      assert n / 256 < Pow(256, width - 1);
      NumberRoundTrip(n / 256, width - 1);
      assert ToLe(n, width)[1..] == ToLe(n / 256, width - 1);
    }
  }

  /** Bytes are recovered from the number they spell, which fits their width. */
  lemma {:induction false} BytesRoundTrip(bytes: seq<Byte>)
    ensures FromLe(bytes) < Pow(256, |bytes|)
    ensures ToLe(FromLe(bytes), |bytes|) == bytes
  {
    if bytes != [] {
      BytesRoundTrip(bytes[1..]);
      assert FromLe(bytes) / 256 == FromLe(bytes[1..]) && FromLe(bytes) % 256 == bytes[0];
      assert bytes == [bytes[0]] + bytes[1..];
    }
  }

  lemma Widths()
    ensures Pow(256, 8) == U64_LIMIT && Pow(256, 16) == U128_LIMIT
  {
    assert Pow(256, 4) == 0x1_0000_0000;
    PowAdd(256, 4, 4);
    PowAdd(256, 8, 8);
  }

  function U64At(bytes: seq<Byte>): U64
    requires |bytes| == 8
  {
    Widths();
    BytesRoundTrip(bytes);
    FromLe(bytes)
  }

  function U128At(bytes: seq<Byte>): U128
    requires |bytes| == 16
  {
    Widths();
    BytesRoundTrip(bytes);
    FromLe(bytes)
  }

  lemma U64RoundTrip(n: U64)
    ensures U64At(ToLe(n, 8)) == n
  {
    Widths();
    NumberRoundTrip(n, 8);
  }

  lemma U128RoundTrip(n: U128)
    ensures U128At(ToLe(n, 16)) == n
  {
    Widths();
    NumberRoundTrip(n, 16);
  }

  lemma U64BytesRoundTrip(bytes: seq<Byte>)
    requires |bytes| == 8
    ensures ToLe(U64At(bytes), 8) == bytes
  {
    BytesRoundTrip(bytes);
  }

  lemma U128BytesRoundTrip(bytes: seq<Byte>)
    requires |bytes| == 16
    ensures ToLe(U128At(bytes), 16) == bytes
  {
    BytesRoundTrip(bytes);
  }

  /** Splitting a concatenation where it was joined. */
  lemma Joined(x: seq<Byte>, y: seq<Byte>)
    ensures (x + y)[..|x|] == x && (x + y)[|x|..] == y
  {
  }

  /** Four fields of one width laid out in a row, and where they end up. */
  function Four(a: seq<Byte>, b: seq<Byte>, c: seq<Byte>, d: seq<Byte>): seq<Byte> {
    a + (b + (c + d))
  }

  lemma FourFields(a: seq<Byte>, b: seq<Byte>, c: seq<Byte>, d: seq<Byte>, w: nat)
    requires |a| == |b| == |c| == |d| == w
    ensures var f := Four(a, b, c, d);
            |f| == 4 * w && f[0..w] == a && f[w..2 * w] == b && f[2 * w..3 * w] == c && f[3 * w..4 * w] == d
  {
  }

  lemma FourJoin(f: seq<Byte>, w: nat)
    requires |f| == 4 * w
    ensures Four(f[0..w], f[w..2 * w], f[2 * w..3 * w], f[3 * w..4 * w]) == f
  {
    assert f[2 * w..] == f[2 * w..3 * w] + f[3 * w..4 * w];
    assert f[w..] == f[w..2 * w] + f[2 * w..];
    assert f == f[0..w] + f[w..];
  }

  /** Copies bytes into a buffer from an offset on, leaving the rest alone. */
  method CopyInto(buffer: array<Byte>, offset: nat, bytes: seq<Byte>)
    requires offset + |bytes| <= buffer.Length
    modifies buffer
    ensures buffer[..] == old(buffer[..offset]) + bytes + old(buffer[offset + |bytes|..])
  {
    for i := 0 to |bytes|
      invariant forall k :: 0 <= k < i ==> buffer[offset + k] == bytes[k]
      invariant forall k :: 0 <= k < offset || offset + i <= k < buffer.Length ==> buffer[k] == old(buffer[k])
    {
      buffer[offset + i] := bytes[i];
    }
    assert buffer[offset..offset + |bytes|] == bytes;
  }
}
