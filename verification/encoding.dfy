/** Fixed-width integers, booleans and string maps as stored bytes. */
module Encoding {
  import opened Tickets

  /** A character below 256 stands for a byte, so a text and its bytes are one value. */
  type Bytes = string

  /** The n low bytes of x, least significant first. */
  function LittleEndian(x: nat, n: nat): (b: Bytes)
    ensures |b| == n
  {
    if n == 0 then [] else [(x % 256) as char] + LittleEndian(x / 256, n - 1)
  }

  function FromLittleEndian(b: Bytes): nat {
    if b == [] then 0 else (b[0] as int) + 256 * FromLittleEndian(b[1..])
  }

  function Pow256(n: nat): nat {
    if n == 0 then 1 else 256 * Pow256(n - 1)
  }

  /** Reading back n little-endian bytes keeps x modulo 256^n. */
  lemma {:induction false} LittleEndianRoundTrip(x: nat, n: nat)
    requires x < Pow256(n)
    ensures FromLittleEndian(LittleEndian(x, n)) == x
  {
    if n > 0 {
      LittleEndianRoundTrip(x / 256, n - 1);
      var b := LittleEndian(x, n);
      assert b[1..] == LittleEndian(x / 256, n - 1);
    }
  }

  /** The byte at k is the digit of weight 256^k: least significant first. */
  lemma {:induction false} LittleEndianAt(x: nat, n: nat, k: nat)
    requires k < n && x < Pow256(n)
    ensures Pow256(k) > 0 && LittleEndian(x, n)[k] as int == (x / Pow256(k)) % 256
  {
    if k > 0 {
      LittleEndianAt(x / 256, n - 1, k - 1);
      DivideTwice(x, Pow256(k - 1));
    }
  }

  lemma DivideTwice(x: nat, b: nat)
    requires b > 0
    ensures (x / 256) / b == x / (256 * b)
  {
    var q, r := (x / 256) / b, (x / 256) % b;
    assert x / 256 == b * q + r;
    assert x == (256 * b) * q + (256 * r + x % 256);
    QuotientUnique(x, 256 * b, q, 256 * r + x % 256);
  }

  lemma QuotientUnique(x: int, d: int, q: int, r: int)
    requires d > 0 && x == d * q + r && 0 <= r < d
    ensures x / d == q
  {
    var z := x / d - q;
    assert d * z == r - x % d;
    assert z >= 1 ==> d * z >= d;
    assert z <= -1 ==> d * z <= -d;
  }

  function Int64ToBytes(x: Int64): (b: Bytes)
    ensures |b| == 8
  {
    LittleEndian(if x < 0 then x + 0x1_0000_0000_0000_0000 else x, 8)
  }

  /** Panics on fewer than eight bytes; further bytes are ignored. */
  function BytesToInt64(b: Bytes): Int64
    requires |b| >= 8
  {
    WrapInt64(FromLittleEndian(b[..8]))
  }

  /** Eight bytes, least significant first, of the two's complement of the number. */
  lemma Int64Layout(x: Int64, k: nat)
    requires k < 8
    ensures Pow256(k) > 0 && Int64ToBytes(x)[k] as int == ((x % 0x1_0000_0000_0000_0000) / Pow256(k)) % 256
  {
    Pow256Values();
    var u := if x < 0 then x + 0x1_0000_0000_0000_0000 else x;
    assert u == x % 0x1_0000_0000_0000_0000 && Int64ToBytes(x) == LittleEndian(u, 8);
    hide LittleEndian, Pow256, Int64ToBytes;
    LittleEndianAt(u, 8, k);
  }

  /** Four bytes, least significant first. */
  lemma UInt32Layout(x: UInt32, k: nat)
    requires k < 4
    ensures Pow256(k) > 0 && UInt32ToBytes(x)[k] as int == (x / Pow256(k)) % 256
  {
    Pow256Values();
    LittleEndianAt(x, 4, k);
  }

  lemma Int64RoundTrip(x: Int64)
    ensures BytesToInt64(Int64ToBytes(x)) == x
  {
    var u := if x < 0 then x + 0x1_0000_0000_0000_0000 else x;
    assert Pow256(8) == 0x1_0000_0000_0000_0000 by { Pow256Values(); }
    LittleEndianRoundTrip(u, 8);
    var b := LittleEndian(u, 8);
    assert b[..8] == b;
  }

  lemma Pow256Values()
    ensures Pow256(4) == 0x1_0000_0000
    ensures Pow256(8) == 0x1_0000_0000_0000_0000
  {
    assert Pow256(4) == 256 * 256 * 256 * 256 * Pow256(0);
    assert Pow256(8) == 256 * 256 * 256 * 256 * Pow256(4);
  }

  function UInt32ToBytes(x: UInt32): (b: Bytes)
    ensures |b| == 4
  {
    LittleEndian(x, 4)
  }

  /** Panics on fewer than four bytes; further bytes are ignored. */
  function BytesToUInt32(b: Bytes): UInt32
    requires |b| >= 4
  {
    FromLittleEndian(b[..4]) % 0x1_0000_0000
  }

  lemma UInt32RoundTrip(x: UInt32)
    ensures BytesToUInt32(UInt32ToBytes(x)) == x
  {
    Pow256Values();
    LittleEndianRoundTrip(x, 4);
    var b := LittleEndian(x, 4);
    assert b[..4] == b;
  }

  function BoolToBytes(x: bool): Bytes {
    if x then [1 as char] else [0 as char]
  }

  /** Panics on an empty value. */
  predicate BytesToBool(b: Bytes)
    requires b != []
  {
    b[0] == 1 as char
  }

  /** The library that writes and reads the text form of a string map. */
  datatype Json = Json(marshal: StringMap -> Bytes, unmarshal: Bytes -> Option<StringMap>) {
    /** Marshalling then unmarshalling gives the map back, a nil map included. */
    ghost predicate RoundTrips() {
      forall m :: unmarshal(marshal(m)) == Some(m)
    }

    /** An absent value or a null text is an empty map, never nil; a text that does
        not parse is an error. */
    function BytesToStringMap(b: Option<Bytes>): (r: Option<StringMap>)
      ensures r.Some? ==> r.value.StringMap?
      ensures b.None? ==> r.Some? && r.value.Entries() == map[]
      ensures b.Some? ==> (r.Some? <==> unmarshal(b.value).Some?)
      ensures b.Some? && r.Some? ==> r.value.Entries() == unmarshal(b.value).value.Entries()
    {
      match b
      case None => Some(StringMap(map[]))
      case Some(text) =>
        match unmarshal(text)
        case None => None
        case Some(m) => Some(m.Normalized())
    }
  }
}
