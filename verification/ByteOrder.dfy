/** The 64-bit integer codec.  The encoder writes eight bytes, least significant
    first; the decoder takes its two top bytes from the same position. */
module ByteOrder {

  type Byte = b: int | 0 <= b < 0x100

  type Bytes = seq<Byte>

  const TWO_48 := 0x1_0000_0000_0000
  const TWO_56 := 0x100_0000_0000_0000
  const TWO_64 := 0x1_0000_0000_0000_0000

  type UInt64 = n: int | 0 <= n < TWO_64

  /** The `n` low-order bytes of a number, least significant first. */
  function LittleEndian(v: nat, n: nat): (r: Bytes)
    ensures |r| == n
  {
    if n == 0 then [] else [v % 0x100] + LittleEndian(v / 0x100, n - 1)
  }

  function Encode(v: UInt64): Bytes {
    LittleEndian(v, 8)
  }

  /** `host_to_network_64`: one assignment per byte. */
  method HostToNetwork(host: UInt64) returns (network: Bytes)
    ensures network == Encode(host)
  {
    var buffer := new Byte[8];
    buffer[0] := host % 0x100;
    buffer[1] := host / 0x100 % 0x100;
    buffer[2] := host / 0x1_0000 % 0x100;
    buffer[3] := host / 0x100_0000 % 0x100;
    buffer[4] := host / 0x1_0000_0000 % 0x100;
    buffer[5] := host / 0x100_0000_0000 % 0x100;
    buffer[6] := host / 0x1_0000_0000_0000 % 0x100;
    buffer[7] := host / 0x100_0000_0000_0000 % 0x100;
    network := buffer[..];
    EncodedBytes(host);
  }

  /** Repeated division by 256 and the shifts of the source agree. */
  lemma Shifts(v: UInt64)
    ensures v / 0x100 / 0x100 == v / 0x1_0000
    ensures v / 0x1_0000 / 0x100 == v / 0x100_0000
    ensures v / 0x100_0000 / 0x100 == v / 0x1_0000_0000
    ensures v / 0x1_0000_0000 / 0x100 == v / 0x100_0000_0000
    ensures v / 0x100_0000_0000 / 0x100 == v / TWO_48
    ensures v / TWO_48 / 0x100 == v / TWO_56
    ensures v / TWO_56 < 0x100
  {
  }

  lemma EncodedBytes(v: UInt64)
    ensures Encode(v) == [
              v % 0x100, v / 0x100 % 0x100, v / 0x1_0000 % 0x100, v / 0x100_0000 % 0x100,
              v / 0x1_0000_0000 % 0x100, v / 0x100_0000_0000 % 0x100,
              v / TWO_48 % 0x100, v / TWO_56 % 0x100]
  {
    Shifts(v);
    var v1, v2, v3, v4 := v / 0x100, v / 0x1_0000, v / 0x100_0000, v / 0x1_0000_0000;
    var v5, v6, v7 := v / 0x100_0000_0000, v / TWO_48, v / TWO_56;
    calc {
      LittleEndian(v, 8);
      [v % 0x100] + LittleEndian(v1, 7);
      [v % 0x100, v1 % 0x100] + LittleEndian(v2, 6);
      [v % 0x100, v1 % 0x100, v2 % 0x100] + LittleEndian(v3, 5);
      [v % 0x100, v1 % 0x100, v2 % 0x100, v3 % 0x100] + LittleEndian(v4, 4);
      [v % 0x100, v1 % 0x100, v2 % 0x100, v3 % 0x100, v4 % 0x100] + LittleEndian(v5, 3);
      [v % 0x100, v1 % 0x100, v2 % 0x100, v3 % 0x100, v4 % 0x100, v5 % 0x100] + LittleEndian(v6, 2);
      [v % 0x100, v1 % 0x100, v2 % 0x100, v3 % 0x100, v4 % 0x100, v5 % 0x100, v6 % 0x100] + LittleEndian(v7, 1);
    }
  }

  /** `network_to_host_64`.  The shifted bytes do not overlap, so their bitwise
      `or` is their sum; byte 6 is used twice and byte 7 is never read. */
  function Decode(b: Bytes): UInt64
    requires |b| == 8
  {
    b[0] + 0x100 * b[1] + 0x1_0000 * b[2] + 0x100_0000 * b[3] +
    0x1_0000_0000 * b[4] + 0x100_0000_0000 * b[5] + TWO_48 * b[6] + TWO_56 * b[6]
  }

  /** The two most significant bytes are equal. */
  predicate TopBytesEqual(v: UInt64) {
    v / TWO_48 % 0x100 == v / TWO_56
  }

  /** The encoded bytes are the base-256 digits of the number. */
  lemma Digits(v: UInt64)
    ensures var b := Encode(v);
            v == b[0] + 0x100 * b[1] + 0x1_0000 * b[2] + 0x100_0000 * b[3] +
                 0x1_0000_0000 * b[4] + 0x100_0000_0000 * b[5] + TWO_48 * b[6] + TWO_56 * b[7]
  {
    EncodedBytes(v);
    Shifts(v);
    Horner(v, v / 0x100, v / 0x1_0000, v / 0x100_0000, v / 0x1_0000_0000,
           v / 0x100_0000_0000, v / TWO_48, v / TWO_56);
  }

  lemma Horner(v0: nat, v1: nat, v2: nat, v3: nat, v4: nat, v5: nat, v6: nat, v7: nat)
    requires v1 == v0 / 0x100 && v2 == v1 / 0x100 && v3 == v2 / 0x100 && v4 == v3 / 0x100
    requires v5 == v4 / 0x100 && v6 == v5 / 0x100 && v7 == v6 / 0x100 && v7 < 0x100
    ensures v0 == v0 % 0x100 + 0x100 * (v1 % 0x100) + 0x1_0000 * (v2 % 0x100) + 0x100_0000 * (v3 % 0x100) +
                  0x1_0000_0000 * (v4 % 0x100) + 0x100_0000_0000 * (v5 % 0x100) +
                  TWO_48 * (v6 % 0x100) + TWO_56 * (v7 % 0x100)
  {
    assert v6 == v6 % 0x100 + 0x100 * (v7 % 0x100);
    assert v5 == v5 % 0x100 + 0x100 * v6;
    assert v4 == v4 % 0x100 + 0x100 * v5;
    assert v3 == v3 % 0x100 + 0x100 * v4;
    assert v2 == v2 % 0x100 + 0x100 * v3;
    assert v1 == v1 % 0x100 + 0x100 * v2;
    assert v0 == v0 % 0x100 + 0x100 * v1;
  }

  /** Decoding an encoded number yields it with its top byte replaced by the one
      below; so the round trip is the identity exactly when those two agree, which
      includes every number below 2^48. */
  lemma RoundTrip(v: UInt64)
    ensures Decode(Encode(v)) == v - TWO_56 * (v / TWO_56) + TWO_56 * (v / TWO_48 % 0x100)
    ensures Decode(Encode(v)) == v <==> TopBytesEqual(v)
    ensures v < TWO_48 ==> TopBytesEqual(v)
  {
    Digits(v);
    EncodedBytes(v);
    var b := Encode(v);
    assert b[6] == v / TWO_48 % 0x100;
    assert b[7] == v / TWO_56 by { assert v / TWO_56 < 0x100; }
    assert Decode(b) == v - TWO_56 * b[7] + TWO_56 * b[6];
  }

  /** A number on which the codec as written loses information. */
  lemma RoundTripFails()
    ensures Decode(Encode(TWO_56)) != TWO_56
    ensures Decode(Encode(TWO_48)) != TWO_48
  {
    RoundTrip(TWO_56);
    RoundTrip(TWO_48);
  }
}
