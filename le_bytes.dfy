/** Fixed-width little-endian integers: `u32::to_le_bytes` and
    `u32::from_le_bytes`, and the `as u32` cast of a length. */
module LeBytes {

  newtype u8 = x: int | 0 <= x < 256

  const U32_LIMIT: nat := 0x1_0000_0000

  newtype u32 = x: int | 0 <= x < 0x1_0000_0000

  /** 256 to the power k: one more than the largest number k bytes hold. */
  function Pow256(k: nat): (r: nat)
    ensures r >= 1
  {
    if k == 0 then 1 else 256 * Pow256(k - 1)
  }

  /** The k low-order bytes of x, least significant first. */
  function ToLe(x: nat, k: nat): (r: seq<u8>)
    ensures |r| == k
  {
    if k == 0 then [] else [(x % 256) as u8] + ToLe(x / 256, k - 1)
  }

  /** The number whose little-endian bytes are b. */
  function FromLe(b: seq<u8>): (r: nat)
    ensures r < Pow256(|b|)
  {
    if b == [] then 0 else b[0] as nat + 256 * FromLe(b[1..])
  }

  /** Encoding then decoding gives back every number that fits in k bytes. */
  lemma {:induction false} FromLeToLe(x: nat, k: nat)
    requires x < Pow256(k)
    ensures FromLe(ToLe(x, k)) == x
  {
    if k > 0 {
      assert x / 256 < Pow256(k - 1);
      FromLeToLe(x / 256, k - 1);
      assert ToLe(x, k)[1..] == ToLe(x / 256, k - 1);
    }
  }

  /** Decoding then encoding at the same width gives back every byte string. */
  lemma {:induction false} ToLeFromLe(b: seq<u8>)
    ensures ToLe(FromLe(b), |b|) == b
  {
    if b != [] {
      var x := FromLe(b);
      assert x % 256 == b[0] as nat && x / 256 == FromLe(b[1..]);
      ToLeFromLe(b[1..]);
    }
  }

  /** `(n as u32)`: Rust keeps the low 32 bits of a wider unsigned length. */
  function AsU32(n: nat): (r: u32)
    ensures n < U32_LIMIT ==> r as nat == n
  {
    (n % U32_LIMIT) as u32
  }

  /** `u32::to_le_bytes`. */
  function U32ToLeBytes(x: u32): (r: seq<u8>)
    ensures |r| == 4
  {
    ToLe(x as nat, 4)
  }

  /** `u32::from_le_bytes` on the 4-byte array `try_into` produced. */
  function U32FromLeBytes(b: seq<u8>): (r: u32)
    requires |b| == 4
    ensures U32ToLeBytes(r) == b
  {
    assert Pow256(4) == U32_LIMIT;
    ToLeFromLe(b);
    FromLe(b) as u32
  }

  /** The round trip in both directions at 4 bytes. */
  lemma U32LeRoundTrip(x: u32, b: seq<u8>)
    requires |b| == 4
    ensures U32FromLeBytes(U32ToLeBytes(x)) == x
    ensures U32ToLeBytes(U32FromLeBytes(b)) == b
  {
    assert Pow256(4) == U32_LIMIT;
    FromLeToLe(x as nat, 4);
    ToLeFromLe(b);
  }
}
