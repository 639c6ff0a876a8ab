/** eSPI virtual wires of the ITE EC (src/ec/ite/espi.c).

    Each virtual-wire index register carries four wires: for a wire with
    shift `n`, bit `n` is its level and bit `n + 4` says the level is valid
    (the Virtual Wire channel, section 5.2 of the Intel eSPI Interface Base
    Specification). A wire is read as LOW, HIGH or INVALID and written by a
    read-modify-write of its index register. */
module Espi {
  import opened Bits

  datatype VirtualWireState = Low | High | Invalid

  /** A wire: the number of its index register and its two masks. */
  datatype VirtualWire = VirtualWire(index: nat, dataMask: bv8, validMask: bv8)

  /** Masks that name one bit each, in different places. */
  predicate WellFormed(vw: VirtualWire)
  {
    vw.dataMask != 0 && vw.validMask != 0 && vw.dataMask & vw.validMask == 0
  }

  /** `VIRTUAL_WIRE(INDEX, SHIFT)`: data bit SHIFT, valid bit SHIFT + 4. */
  function Wire(index: nat, shift: nat): (vw: VirtualWire)
    requires shift < 4
    ensures vw.index == index && WellFormed(vw)
    ensures vw.dataMask == Mask(shift) && vw.validMask == Mask(shift + 4)
  {
    VirtualWire(index, Mask(shift), Mask(shift + 4))
  }

  // The wires the board uses.
  const BootLoadDone := Wire(5, 0)
  const BootLoadStatus := Wire(5, 3)
  const SlpS3N := Wire(2, 0)
  const SlpS4N := Wire(2, 1)
  const SlpS5N := Wire(2, 2)
  const SusStatN := Wire(3, 0)
  const PltRstN := Wire(3, 1)
  const OobRstWarn := Wire(3, 2)
  const OobRstAck := Wire(4, 0)
  const WakeN := Wire(4, 2)
  const PmeN := Wire(4, 3)
  const ErrorFatal := Wire(5, 1)
  const ErrorNonfatal := Wire(5, 2)
  const SciN := Wire(6, 0)
  const SmiN := Wire(6, 1)
  const RcinN := Wire(6, 2)
  const HostRstAck := Wire(6, 3)
  const HostRstWarn := Wire(7, 0)
  const SusAckN := Wire(40, 0)
  const SusWarnN := Wire(41, 0)
  const SusPwrdnAck := Wire(41, 1)
  const HostC10 := Wire(47, 0)

  /** `vw_get`: the state of `vw` as encoded in its index byte. */
  function VwGet(index: bv8, vw: VirtualWire): VirtualWireState
  {
    Decode(index & vw.validMask, index & vw.dataMask)
  }

  /** The state given by the wire's valid bits and data bits of an index byte. */
  function Decode(valid: bv8, data: bv8): VirtualWireState
  {
    if valid != 0 then
      if data != 0 then High else Low
    else
      Invalid
  }

  /** The index byte that `vw_set` writes back. */
  function VwSetValue(index: bv8, vw: VirtualWire, state: VirtualWireState): bv8
  {
    match state
    case Low => SetBits(ClearBits(index, vw.dataMask), vw.validMask)
    case High => SetBits(SetBits(index, vw.dataMask), vw.validMask)
    case Invalid => ClearBits(index, vw.validMask)
  }

  /** One virtual-wire index register of the EC. */
  class IndexRegister {
    const number: nat
    var value: bv8

    constructor (number: nat, value: bv8)
      ensures this.number == number && this.value == value
    {
      this.number := number;
      this.value := value;
    }
  }

  /** `vw_set`: read the index register, adjust the wire's bits, write it back. */
  method VwSet(reg: IndexRegister, vw: VirtualWire, state: VirtualWireState)
    requires reg.number == vw.index
    modifies reg
    ensures reg.value == VwSetValue(old(reg.value), vw, state)
  {
    var index := reg.value;
    match state {
      case Low =>
        index := ClearBits(index, vw.dataMask);
        index := SetBits(index, vw.validMask);
      case High =>
        index := SetBits(index, vw.dataMask);
        index := SetBits(index, vw.validMask);
      case Invalid =>
        index := ClearBits(index, vw.validMask);
    }
    reg.value := index;
  }

  /** Reading: INVALID exactly when no valid bit is set; otherwise the data
      bit decides between HIGH and LOW. */
  lemma VwGetCases(index: bv8, vw: VirtualWire)
    ensures VwGet(index, vw) == Invalid <==> index & vw.validMask == 0
    ensures VwGet(index, vw) == High <==> index & vw.validMask != 0 && index & vw.dataMask != 0
    ensures VwGet(index, vw) == Low <==> index & vw.validMask != 0 && index & vw.dataMask == 0
  {
  }

  /** Writing LOW clears the data bits and sets the valid bits. */
  lemma VwSetLow(index: bv8, vw: VirtualWire)
    requires vw.dataMask & vw.validMask == 0
    ensures VwSetValue(index, vw, Low) & vw.dataMask == 0
    ensures VwSetValue(index, vw, Low) & vw.validMask == vw.validMask
  {
  }

  /** Writing HIGH sets both the data bits and the valid bits. */
  lemma VwSetHigh(index: bv8, vw: VirtualWire)
    ensures VwSetValue(index, vw, High) & vw.dataMask == vw.dataMask
    ensures VwSetValue(index, vw, High) & vw.validMask == vw.validMask
  {
  }

  /** Writing INVALID clears the valid bits and nothing else. */
  lemma VwSetInvalid(index: bv8, vw: VirtualWire)
    ensures VwSetValue(index, vw, Invalid) & vw.validMask == 0
    ensures VwSetValue(index, vw, Invalid) & !vw.validMask == index & !vw.validMask
  {
  }

  /** No write touches a bit outside the wire's two masks. */
  lemma VwSetFrame(index: bv8, vw: VirtualWire, state: VirtualWireState)
    ensures VwSetValue(index, vw, state) & !(vw.dataMask | vw.validMask)
         == index & !(vw.dataMask | vw.validMask)
  {
  }

  /** Writing the same state twice is the same as writing it once. */
  lemma VwSetIdempotent(index: bv8, vw: VirtualWire, state: VirtualWireState)
    ensures VwSetValue(VwSetValue(index, vw, state), vw, state) == VwSetValue(index, vw, state)
  {
    var d, v := vw.dataMask, vw.validMask;
    match state {
      case Low => ClearThenSetTwice(index, d, v);
      case High => SetThenSetTwice(index, d, v);
      case Invalid => ClearTwice(index, v);
    }
  }

  /** A wire with well-formed masks reads back the state last written. */
  lemma VwRoundTrip(index: bv8, vw: VirtualWire, state: VirtualWireState)
    requires WellFormed(vw)
    ensures VwGet(VwSetValue(index, vw, state), vw) == state
  {
    match state {
      case Low => RoundTripLow(index, vw);
      case High => RoundTripHigh(index, vw);
      case Invalid => RoundTripInvalid(index, vw);
    }
  }

  lemma RoundTripLow(index: bv8, vw: VirtualWire)
    requires WellFormed(vw)
    ensures VwGet(VwSetValue(index, vw, Low), vw) == Low
  {
    ClearThenSetReads(index, vw.dataMask, vw.validMask);
  }

  lemma RoundTripHigh(index: bv8, vw: VirtualWire)
    requires WellFormed(vw)
    ensures VwGet(VwSetValue(index, vw, High), vw) == High
  {
    SetThenSetReads(index, vw.dataMask, vw.validMask);
  }

  lemma RoundTripInvalid(index: bv8, vw: VirtualWire)
    ensures VwGet(VwSetValue(index, vw, Invalid), vw) == Invalid
  {
    ClearTwice(index, vw.validMask);
  }

  /** Writing one wire leaves the state of every other wire of the same
      index register as it was. */
  lemma VwSetOtherWire(index: bv8, vw: VirtualWire, other: VirtualWire, state: VirtualWireState)
    requires (vw.dataMask | vw.validMask) & (other.dataMask | other.validMask) == 0
    ensures VwGet(VwSetValue(index, vw, state), other) == VwGet(index, other)
  {
    match state {
      case Low => OtherWireLow(index, vw, other);
      case High => OtherWireHigh(index, vw, other);
      case Invalid => OtherWireInvalid(index, vw, other);
    }
  }

  lemma OtherWireLow(index: bv8, vw: VirtualWire, other: VirtualWire)
    requires (vw.dataMask | vw.validMask) & (other.dataMask | other.validMask) == 0
    ensures VwGet(VwSetValue(index, vw, Low), other) == VwGet(index, other)
  {
    ClearThenSetOther(index, vw.dataMask, vw.validMask, other.dataMask, other.validMask);
  }

  lemma OtherWireHigh(index: bv8, vw: VirtualWire, other: VirtualWire)
    requires (vw.dataMask | vw.validMask) & (other.dataMask | other.validMask) == 0
    ensures VwGet(VwSetValue(index, vw, High), other) == VwGet(index, other)
  {
    SetThenSetOther(index, vw.dataMask, vw.validMask, other.dataMask, other.validMask);
  }

  lemma OtherWireInvalid(index: bv8, vw: VirtualWire, other: VirtualWire)
    requires (vw.dataMask | vw.validMask) & (other.dataMask | other.validMask) == 0
    ensures VwGet(VwSetValue(index, vw, Invalid), other) == VwGet(index, other)
  {
    ClearOther(index, vw.dataMask, vw.validMask, other.dataMask, other.validMask);
  }

  // Byte-level facts behind the three lemmas above, one per state, so that
  // each is proved without the case split on the state.

  lemma ClearThenSetTwice(x: bv8, d: bv8, v: bv8)
    ensures SetBits(ClearBits(SetBits(ClearBits(x, d), v), d), v) == SetBits(ClearBits(x, d), v)
  {
  }

  lemma SetThenSetTwice(x: bv8, d: bv8, v: bv8)
    ensures SetBits(SetBits(SetBits(SetBits(x, d), v), d), v) == SetBits(SetBits(x, d), v)
  {
  }

  lemma ClearTwice(x: bv8, v: bv8)
    ensures ClearBits(ClearBits(x, v), v) == ClearBits(x, v)
    ensures ClearBits(x, v) & v == 0
  {
  }

  lemma ClearThenSetReads(x: bv8, d: bv8, v: bv8)
    requires v != 0 && d & v == 0
    ensures SetBits(ClearBits(x, d), v) & v != 0
    ensures SetBits(ClearBits(x, d), v) & d == 0
  {
  }

  lemma SetThenSetReads(x: bv8, d: bv8, v: bv8)
    requires v != 0 && d != 0
    ensures SetBits(SetBits(x, d), v) & v != 0
    ensures SetBits(SetBits(x, d), v) & d != 0
  {
  }

  lemma ClearThenSetOther(x: bv8, d: bv8, v: bv8, od: bv8, ov: bv8)
    requires (d | v) & (od | ov) == 0
    ensures SetBits(ClearBits(x, d), v) & od == x & od
    ensures SetBits(ClearBits(x, d), v) & ov == x & ov
  {
  }

  lemma SetThenSetOther(x: bv8, d: bv8, v: bv8, od: bv8, ov: bv8)
    requires (d | v) & (od | ov) == 0
    ensures SetBits(SetBits(x, d), v) & od == x & od
    ensures SetBits(SetBits(x, d), v) & ov == x & ov
  {
  }

  lemma ClearOther(x: bv8, d: bv8, v: bv8, od: bv8, ov: bv8)
    requires (d | v) & (od | ov) == 0
    ensures ClearBits(x, v) & od == x & od
    ensures ClearBits(x, v) & ov == x & ov
  {
  }
}
