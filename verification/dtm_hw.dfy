/** Radio hardware facts: radio modes, the transmit power table and the searches over it
    (src/dtm_hw.c, and the nearest-power search of src/dtm.c). A power is one octet; it
    is read as a signed 8-bit dBm value wherever the code compares it. */
module DtmHw {
  import opened Bytes

  /** The radio modes of the hardware layer; only the four BLE modes pass validation. */
  datatype RadioMode =
    | Nrf1Mbit | Nrf2Mbit | Ble1Mbit | Ble2Mbit | BleLr125Kbit | BleLr500Kbit | Ieee802154

  predicate LongRange(mode: RadioMode) {
    mode == BleLr125Kbit || mode == BleLr500Kbit
  }

  predicate Uncoded(mode: RadioMode) {
    mode == Ble1Mbit || mode == Ble2Mbit
  }

  function AsInt8(b: byte): (v: int)
    ensures -0x80 <= v < 0x80 && (v == b || v == b - 0x100)
  {
    if b < 0x80 then b else b - 0x100
  }

  function AsByte(v: int): (b: byte)
    requires -0x80 <= v < 0x80
    ensures AsInt8(b) == v
  {
    if v < 0 then v + 0x100 else v
  }

  /** Conversion of an `int` to `int8_t`. */
  function WrapInt8(v: int): int {
    AsInt8(v % 0x100)
  }

  function Abs(v: int): nat { if v < 0 then -v else v }

  type PowerTable = t: seq<byte> | ValidTable(t) witness [0]

  /** A device's table: strictly ascending, neighbours less than 128 dB apart, 0 dBm (the
      reset value) present, and 127 dBm (the search's "nothing found" mark) absent. */
  predicate ValidTable(t: seq<byte>) {
    && 0 in t
    && (forall i, j :: 0 <= i < j < |t| ==> AsInt8(t[i]) < AsInt8(t[j]))
    && (forall i, j :: 0 <= i < |t| && j == i + 1 && j < |t| ==> AsInt8(t[j]) - AsInt8(t[i]) < 0x80)
    && AsInt8(t[|t| - 1]) < 0x7F
  }

  /** The nRF5340 network core's table; the mode-independent facts hold of any valid one. */
  const NRF5340_POWER: seq<byte> :=
    [0xD8, 0xE2, 0xEC, 0xF0, 0xF4, 0xF8, 0xF9, 0xFA, 0xFB, 0xFC, 0xFD, 0xFE, 0xFF, 0x00, 0x01, 0x02, 0x03]

  function MinPower(t: PowerTable): int { AsInt8(t[0]) }

  function MaxPower(t: PowerTable): int { AsInt8(t[|t| - 1]) }

  predicate Validates(t: PowerTable, power: byte, mode: RadioMode) {
    (LongRange(mode) || Uncoded(mode)) && power in t
  }

  method RadioValidate(t: PowerTable, power: byte, mode: RadioMode) returns (ok: bool)
    ensures ok <==> Validates(t, power, mode)
  {
    if !(LongRange(mode) || Uncoded(mode)) {
      return false;
    }
    var i := 0;
    while i < |t|
      invariant i <= |t| && power !in t[..i]
    {
      if power == t[i] {
        return true;
      }
      i := i + 1;
    }
    return false;
  }

  // ------------------------------------------------------------ nearest power

  /** Where the table entry closest to `v` dBm is, found by comparing every entry; the
      earlier (lower) of two equally close ones. */
  function NearestIndex(t: seq<byte>, v: int): (k: nat)
    requires t != []
    ensures k < |t|
  {
    var n := |t| - 1;
    if n == 0 then 0
    else
      var best := NearestIndex(t[..n], v);
      if Abs(AsInt8(t[n]) - v) < Abs(AsInt8(t[best]) - v) then n else best
  }

  function Nearest(t: seq<byte>, v: int): (p: byte)
    requires t != []
    ensures p in t
  {
    t[NearestIndex(t, v)]
  }

  /** `p` beats every other entry: strictly closer, or as close and lower. */
  ghost predicate IsNearest(t: seq<byte>, v: int, p: byte) {
    p in t && forall k :: 0 <= k < |t| ==> Beats(v, p, t[k])
  }

  predicate Beats(v: int, p: byte, q: byte) {
    || Abs(AsInt8(p) - v) < Abs(AsInt8(q) - v)
    || (Abs(AsInt8(p) - v) == Abs(AsInt8(q) - v) && AsInt8(p) <= AsInt8(q))
  }

  ghost predicate Ascending(t: seq<byte>) {
    forall i, j :: 0 <= i < j < |t| ==> AsInt8(t[i]) < AsInt8(t[j])
  }

  lemma {:induction false} NearestBeats(t: seq<byte>, v: int, k: nat)
    requires Ascending(t) && k < |t|
    ensures Beats(v, Nearest(t, v), t[k])
  {
    var n := |t| - 1;
    if n > 0 {
      var init := t[..n];
      var best := NearestIndex(init, v);
      assert init[best] == t[best] && AsInt8(t[best]) < AsInt8(t[n]);
      if k < n {
        NearestBeats(init, v, k);
        assert Beats(v, t[best], t[k]);
      }
    }
  }

  /** `Nearest` is the one entry that beats every other. */
  lemma NearestIsNearest(t: seq<byte>, v: int)
    requires t != [] && Ascending(t)
    ensures forall p :: IsNearest(t, v, p) <==> p == Nearest(t, v)
  {
    var best := Nearest(t, v);
    forall k | 0 <= k < |t| ensures Beats(v, best, t[k]) { NearestBeats(t, v, k); }
    assert IsNearest(t, v, best);
    forall p | IsNearest(t, v, p) ensures p == best {
      assert Beats(v, p, t[NearestIndex(t, v)]);
      var k :| 0 <= k < |t| && t[k] == p;
      assert Beats(v, best, t[k]);
    }
  }

  lemma NearestMonotone(t: seq<byte>, v: int, w: int)
    requires t != [] && Ascending(t) && v <= w
    ensures AsInt8(Nearest(t, v)) <= AsInt8(Nearest(t, w))
  {
    NearestIsNearest(t, v);
    NearestIsNearest(t, w);
    var p, q := Nearest(t, v), Nearest(t, w);
    assert IsNearest(t, v, p) && IsNearest(t, w, q);
    assert Beats(v, p, t[NearestIndex(t, w)]) && Beats(w, q, t[NearestIndex(t, v)]);
  }

  lemma NearestFixes(t: seq<byte>, p: byte)
    requires Ascending(t) && p in t
    ensures Nearest(t, AsInt8(p)) == p
  {
    NearestIsNearest(t, AsInt8(p));
    forall k | 0 <= k < |t| ensures Beats(AsInt8(p), p, t[k]) {}
    assert IsNearest(t, AsInt8(p), p);
  }

  /** Outside the table's range the nearest entry is the end of the range. */
  lemma NearestClamps(t: PowerTable, v: int)
    ensures v <= MinPower(t) ==> Nearest(t, v) == t[0]
    ensures v >= MaxPower(t) ==> Nearest(t, v) == t[|t| - 1]
  {
    NearestIsNearest(t, v);
    if v <= MinPower(t) { assert IsNearest(t, v, t[0]); }
    if v >= MaxPower(t) { assert IsNearest(t, v, t[|t| - 1]); }
  }

  /** The loop of `dtm_radio_nearest_power_get`; strictly inside the table's range its
      assertion never fails and it finds the nearest entry. */
  method NearestPowerGet(t: PowerTable, v: int) returns (power: int)
    requires MinPower(t) < v < MaxPower(t)
    ensures power == AsInt8(Nearest(t, v))
  {
    power := 0x7F;
    var i := 1;
    while i < |t|
      invariant 1 <= i <= |t| && power == 0x7F
      invariant forall j :: 0 <= j < i ==> AsInt8(t[j]) <= v
    {
      if AsInt8(t[i]) > v {
        var diff := WrapInt8(Abs(AsInt8(t[i]) - v));
        if diff < Abs(AsInt8(t[i - 1]) - v) {
          power := AsInt8(t[i]);
        } else {
          power := AsInt8(t[i - 1]);
        }
        Bracketed(t, v, i);
        break;
      }
      i := i + 1;
    }
    assert power != 0x7F;
  }

  lemma Bracketed(t: PowerTable, v: int, i: nat)
    requires 1 <= i < |t| && AsInt8(t[i - 1]) <= v < AsInt8(t[i])
    ensures Nearest(t, v) ==
            if Abs(AsInt8(t[i]) - v) < Abs(AsInt8(t[i - 1]) - v) then t[i] else t[i - 1]
    ensures WrapInt8(Abs(AsInt8(t[i]) - v)) == Abs(AsInt8(t[i]) - v)
  {
    NearestIsNearest(t, v);
    var p := if Abs(AsInt8(t[i]) - v) < Abs(AsInt8(t[i - 1]) - v) then t[i] else t[i - 1];
    forall k | 0 <= k < |t| ensures Beats(v, p, t[k]) {
      assert k < i - 1 ==> AsInt8(t[k]) < AsInt8(t[i - 1]);
      assert k > i ==> AsInt8(t[i]) < AsInt8(t[k]);
    }
    assert IsNearest(t, v, p);
    assert AsInt8(t[i]) - AsInt8(t[i - 1]) < 0x80;
  }

  /** The nRF5340's powers in dBm. */
  lemma Nrf5340TableIsValid()
    ensures ValidTable(NRF5340_POWER)
    ensures seq(|NRF5340_POWER|, i requires 0 <= i < |NRF5340_POWER| => AsInt8(NRF5340_POWER[i])) ==
            [-40, -30, -20, -16, -12, -8, -7, -6, -5, -4, -3, -2, -1, 0, 1, 2, 3]
  {
    assert NRF5340_POWER[13] == 0;
  }

  lemma ValidatesExactly(t: PowerTable, power: byte, mode: RadioMode)
    ensures Validates(t, power, mode) <==>
              power in t && (mode == Ble1Mbit || mode == Ble2Mbit || mode == BleLr125Kbit || mode == BleLr500Kbit)
  {}
}
