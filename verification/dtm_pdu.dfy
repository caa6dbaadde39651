/** Test packets (Vol 6 Part F section 4.1): what the transmitter writes into its PDU
    buffer and what the receiver's content check accepts, with the tone extension off. */
module DtmPdu {
  import opened Bytes
  import opened DtmHw

  const PDU_SIZE: nat := 258

  /** Packet types of the engine's interface. */
  datatype PacketType =
    | Prbs9 | Fill0F | Fill55 | Prbs15 | FfOrVendor | FillFF | Fill00 | FillF0 | FillAA | Vendor

  /** The pseudo-random sequences are constant tables; nothing here depends on their values. */
  type PrbsTable = s: seq<byte> | |s| == 255 witness seq(255, _ => 0)
  const PRBS9_CONTENT: PrbsTable
  const PRBS15_CONTENT: PrbsTable

  predicate HasPattern(pkt: PacketType) {
    pkt != FfOrVendor && pkt != Vendor
  }

  /** The type code a patterned packet carries in its header. */
  function TypeCode(pkt: PacketType): (code: nat)
    requires HasPattern(pkt)
    ensures code < 8
  {
    match pkt
    case Prbs9 => 0
    case Fill0F => 1
    case Fill55 => 2
    case Prbs15 => 3
    case FillFF => 4
    case Fill00 => 5
    case FillF0 => 6
    case FillAA => 7
  }

  function FillOctet(code: nat): byte
    requires code < 8 && code != 0 && code != 3
  {
    match code
    case 1 => 0x0F
    case 2 => 0x55
    case 4 => 0xFF
    case 5 => 0x00
    case 6 => 0xF0
    case _ => 0xAA
  }

  /** The payload of `n` octets that a type code stands for. */
  function Pattern(code: nat, n: byte): (s: seq<byte>)
    requires code < 8
    ensures |s| == n
  {
    if code == 0 then PRBS9_CONTENT[..n]
    else if code == 3 then PRBS15_CONTENT[..n]
    else Repeat(FillOctet(code), n)
  }

  function Repeat(value: byte, n: nat): (s: seq<byte>)
    ensures |s| == n && forall i :: 0 <= i < n ==> s[i] == value
  {
    seq(n, _ => value)
  }

  /** A PDU buffer after the transmitter built a packet over whatever it held before. */
  function Built(before: seq<byte>, pkt: PacketType, n: byte): (pdu: seq<byte>)
    requires |before| == PDU_SIZE && HasPattern(pkt)
    ensures |pdu| == PDU_SIZE
  {
    [TypeCode(pkt), n] + Pattern(TypeCode(pkt), n) + before[2 + n..]
  }

  /** Type codes the receiver admits: the three uncoded ones, up to 0xFF on coded PHYs. */
  predicate Allowed(mode: RadioMode, code: nat) {
    if Uncoded(mode) then code <= 2
    else if LongRange(mode) then code <= 4
    else code < 8
  }

  predicate Accepts(mode: RadioMode, pdu: seq<byte>)
    requires |pdu| == PDU_SIZE
  {
    var code, n := pdu[0] % 0x10, pdu[1];
    Allowed(mode, code) && pdu[2..2 + n] == Pattern(code, n)
  }

  method CheckPdu(pdu: array<byte>, mode: RadioMode) returns (ok: bool)
    requires pdu.Length == PDU_SIZE
    ensures ok <==> Accepts(mode, pdu[..])
  {
    var code, length := pdu[0] % 0x10, pdu[1];
    if Uncoded(mode) && code > 2 {
      return false;
    }
    if LongRange(mode) && code > 4 {
      return false;
    }
    if code == 0 {
      return pdu[2..2 + length] == PRBS9_CONTENT[..length];
    }
    if code == 3 {
      return pdu[2..2 + length] == PRBS15_CONTENT[..length];
    }
    if code > 7 {
      return false;
    }
    var pattern := FillOctet(code);
    var k: byte := 0;
    while k < length
      invariant k <= length
      invariant forall j :: 2 <= j < 2 + k ==> pdu[j] == pattern
    {
      if pdu[k + 2] != pattern {
        assert pdu[..][2..2 + length][k] != Pattern(code, length)[k];
        return false;
      }
      k := k + 1;
    }
    assert pdu[..][2..2 + length] == Pattern(code, length);
    return true;
  }

  method MemSet(a: array<byte>, from: nat, value: byte, n: nat)
    requires from + n <= a.Length
    modifies a
    ensures a[..] == old(a[..from]) + Repeat(value, n) + old(a[from + n..])
  {
    forall i | from <= i < from + n { a[i] := value; }
  }

  method MemCopy(a: array<byte>, from: nat, src: seq<byte>)
    requires from + |src| <= a.Length
    modifies a
    ensures a[..] == old(a[..from]) + src + old(a[from + |src|..])
  {
    forall i | from <= i < from + |src| { a[i] := src[i - from]; }
  }

  /** The pattern-writing switch of `dtm_test_transmit`; the length octet is already set. */
  method FillPdu(pdu: array<byte>, pkt: PacketType, n: byte)
    requires pdu.Length == PDU_SIZE && HasPattern(pkt) && pdu[1] == n
    modifies pdu
    ensures pdu[..] == Built(old(pdu[..]), pkt, n)
  {
    pdu[0] := TypeCode(pkt);
    ghost var tail := pdu[2 + n..];
    assert pdu[..2] == [TypeCode(pkt), n] && tail == old(pdu[2 + n..]) == old(pdu[..])[2 + n..];
    match pkt {
      case Prbs9 => MemCopy(pdu, 2, PRBS9_CONTENT[..n]);
      case Fill0F => MemSet(pdu, 2, 0x0F, n);
      case Fill55 => MemSet(pdu, 2, 0x55, n);
      case Prbs15 => MemCopy(pdu, 2, PRBS15_CONTENT[..n]);
      case FillFF => MemSet(pdu, 2, 0xFF, n);
      case Fill00 => MemSet(pdu, 2, 0x00, n);
      case FillF0 => MemSet(pdu, 2, 0xF0, n);
      case FillAA => MemSet(pdu, 2, 0xAA, n);
    }
  }

  /** The checker accepts what the transmitter built, over any earlier buffer contents,
      exactly when the receiver admits the type on its PHY. */
  lemma Agreement(mode: RadioMode, before: seq<byte>, pkt: PacketType, n: byte)
    requires |before| == PDU_SIZE && HasPattern(pkt)
    ensures Accepts(mode, Built(before, pkt, n)) <==> Allowed(mode, TypeCode(pkt))
  {
    assert Built(before, pkt, n)[2..2 + n] == Pattern(TypeCode(pkt), n);
  }

  /** Which types a receiver admits: the three uncoded ones, up to 0xFF on coded PHYs. */
  lemma AdmittedExactly(mode: RadioMode, before: seq<byte>, pkt: PacketType, n: byte)
    requires |before| == PDU_SIZE && HasPattern(pkt)
    ensures mode == Ble1Mbit || mode == Ble2Mbit ==>
              (Accepts(mode, Built(before, pkt, n)) <==> pkt == Prbs9 || pkt == Fill0F || pkt == Fill55)
    ensures mode == BleLr125Kbit || mode == BleLr500Kbit ==>
              (Accepts(mode, Built(before, pkt, n)) <==> pkt == Prbs9 || pkt == Fill0F || pkt == Fill55 || pkt == Prbs15 || pkt == FillFF)
  {
    Agreement(mode, before, pkt, n);
  }

  function Weight(k: nat): nat
    requires k < 8
  {
    if k == 0 then 1 else if k == 1 then 2 else if k == 2 then 4 else if k == 3 then 8
    else if k == 4 then 16 else if k == 5 then 32 else if k == 6 then 64 else 128
  }

  /** Bit `k` of an octet in transmission order, which starts at the least significant. */
  predicate Bit(octet: byte, k: nat)
    requires k < 8
  {
    octet / Weight(k) % 2 == 1
  }

  /** The standard's repeated bit patterns (Vol 6 Part F section 4.1.4), by type code. */
  predicate StandardBit(code: nat, k: nat) {
    match code
    case 1 => k < 4        // 11110000
    case 2 => k % 2 == 0   // 10101010
    case 4 => true         // 11111111
    case 5 => false        // 00000000
    case 6 => k >= 4       // 00001111
    case _ => k % 2 == 1   // 01010101
  }

  lemma OctetOfStandard(code: nat, k: nat)
    requires code < 8 && code != 0 && code != 3 && k < 8
    ensures Bit(FillOctet(code), k) <==> StandardBit(code, k)
  {}

  /** Every octet of a built packet: type code and length, then the pseudo-random sequence
      the code names, or octets with the standard's bits. */
  lemma BuiltToStandard(before: seq<byte>, pkt: PacketType, n: byte, i: nat, k: nat)
    requires |before| == PDU_SIZE && HasPattern(pkt) && i < n && k < 8
    ensures var pdu := Built(before, pkt, n);
            && pdu[0] < 8 && pdu[1] == n
            && pdu[0] == (match pkt case Prbs9 => 0 case Fill0F => 1 case Fill55 => 2 case Prbs15 => 3
                                    case FillFF => 4 case Fill00 => 5 case FillF0 => 6 case _ => 7)
            && (pkt == Prbs9 ==> pdu[2 + i] == PRBS9_CONTENT[i])
            && (pkt == Prbs15 ==> pdu[2 + i] == PRBS15_CONTENT[i])
            && (pkt != Prbs9 && pkt != Prbs15 ==> (Bit(pdu[2 + i], k) <==> StandardBit(pdu[0], k)))
  {
    var code := TypeCode(pkt);
    assert Built(before, pkt, n)[2 + i] == Pattern(code, n)[i];
    if pkt != Prbs9 && pkt != Prbs15 { OctetOfStandard(code, k); }
  }

  /** The patterned packet type of a code. */
  function TypeOf(code: nat): (pkt: PacketType)
    requires code < 8
    ensures HasPattern(pkt) && TypeCode(pkt) == code
  {
    match code
    case 0 => Prbs9
    case 1 => Fill0F
    case 2 => Fill55
    case 3 => Prbs15
    case 4 => FillFF
    case 5 => Fill00
    case 6 => FillF0
    case _ => FillAA
  }

  /** Conversely it accepts only that: an accepted PDU is the transmitter's packet of its
      own type and length, up to the four unused header bits. */
  lemma AcceptsOnlyBuilt(mode: RadioMode, pdu: seq<byte>)
    requires |pdu| == PDU_SIZE
    ensures Accepts(mode, pdu) <==>
              && Allowed(mode, pdu[0] % 0x10)
              && pdu[1..] == Built(pdu, TypeOf(pdu[0] % 0x10), pdu[1])[1..]
  {
    var code, n := pdu[0] % 0x10, pdu[1];
    if Allowed(mode, code) {
      var built := Built(pdu, TypeOf(code), n);
      assert built[2..2 + n] == Pattern(code, n);
      assert pdu[1..] == [n] + pdu[2..2 + n] + pdu[2 + n..];
      assert built[1..] == [n] + Pattern(code, n) + pdu[2 + n..];
      if pdu[1..] == built[1..] {
        assert pdu[2..2 + n] == pdu[1..][1..1 + n];
        assert built[2..2 + n] == built[1..][1..1 + n];
      }
    }
  }

  /** Whatever follows the announced payload is never looked at. */
  lemma TailIgnored(mode: RadioMode, p: seq<byte>, q: seq<byte>)
    requires |p| == |q| == PDU_SIZE && p[..2 + p[1]] == q[..2 + p[1]]
    ensures Accepts(mode, p) <==> Accepts(mode, q)
  {
    var n := p[1];
    assert p[0] == p[..2 + n][0] == q[..2 + n][0] == q[0];
    assert p[1] == p[..2 + n][1] == q[..2 + n][1] == q[1];
    assert p[2..2 + n] == p[..2 + n][2..] == q[..2 + n][2..] == q[2..2 + n];
  }
}
