/** Machine-level values shared by every component: octets, the little-endian
    pairs of HCI headers, and errno results. */
module Bytes {
  type byte = b: int | 0 <= b < 0x100
  type uint16 = n: int | 0 <= n < 0x1_0000
  type uint32 = n: int | 0 <= n < 0x1_0000_0000

  /** Errno values, negated as the C functions return them. */
  const EINVAL: int := -22
  const EBUSY: int := -16
  const ENOMEM: int := -12
  const ENOTSUP: int := -134

  function Le16(lo: byte, hi: byte): uint16 {
    lo + 0x100 * hi
  }

  function Lo(n: uint16): byte { n % 0x100 }

  function Hi(n: uint16): byte { n / 0x100 }

  function Min(a: nat, b: nat): nat { if a < b then a else b }

  lemma Assoc<T>(a: seq<T>, b: seq<T>, c: seq<T>)
    ensures (a + b) + c == a + (b + c)
  {}

  lemma Le16Split(n: uint16)
    ensures Le16(Lo(n), Hi(n)) == n
  {}

  /** The numbers of a stream of two-octet words, upper octet first. */
  function BigEndian(s: seq<byte>): seq<uint16> {
    if |s| < 2 then [] else [0x100 * (s[0] as int) + (s[1] as int)] + BigEndian(s[2..])
  }
}
