/**
 ICE candidate priorities (Candidate::GetPriority in api/candidate.cc), after sections 4.1.2.1
 and 7.1.2.1 of RFC 5245. The code packs three fields with shifts and ors; the RFC adds them.
 */
module CandidatePriority {

  const MAX_TURN_SERVERS: nat := 32
  const UINT32_MODULUS: nat := 0x1_0000_0000

  /** The fields of a candidate its priority depends on. `addressPrecedence` is the value of
      IPAddressPrecedence for its address, which is at most 60. */
  datatype Candidate = Candidate(component: int, addressPrecedence: nat, relayProtocol: string)

  /** What the caller knows about the candidate's type, network and relay server. */
  datatype Preferences = Preferences(typePreference: nat, networkAdapter: nat, relay: nat)

  function Pow2(k: nat): nat {
    if k == 0 then 1 else 2 * Pow2(k - 1)
  }

  function ShiftLeft(x: nat, k: nat): nat {
    if k == 0 then x else 2 * ShiftLeft(x, k - 1)
  }

  /** Bitwise or on natural numbers. */
  function BitOr(a: nat, b: nat): nat {
    if a == 0 then b
    else if b == 0 then a
    else (if a % 2 == 1 || b % 2 == 1 then 1 else 0) + 2 * BitOr(a / 2, b / 2)
  }

  /** Bitwise and on natural numbers. */
  function BitAnd(a: nat, b: nat): nat {
    if a == 0 || b == 0 then 0
    else (if a % 2 == 1 && b % 2 == 1 then 1 else 0) + 2 * BitAnd(a / 2, b / 2)
  }

  function ToUint32(x: int): nat {
    x % UINT32_MODULUS
  }

  /** The local preference before the adjustment. */
  function BaseLocalPreference(c: Candidate, p: Preferences): nat {
    BitOr(ShiftLeft(p.networkAdapter, 8), c.addressPrecedence) + p.relay
  }

  function LocalPreference(c: Candidate, p: Preferences, adjust: bool): nat {
    if adjust && c.relayProtocol == "" then BaseLocalPreference(c, p) + MAX_TURN_SERVERS
    else BaseLocalPreference(c, p)
  }

  /** What the code demands: an address precedence of one byte (IPAddressPrecedence has no larger
      value), a 32-bit type preference, and room for the adjustment in the 16-bit local preference. */
  predicate Demanded(c: Candidate, p: Preferences) {
    && c.addressPrecedence < 256
    && p.typePreference < UINT32_MODULUS
    && BaseLocalPreference(c, p) + MAX_TURN_SERVERS < 0x10000
  }

  function GetPriority(c: Candidate, p: Preferences, adjust: bool): nat
    requires Demanded(c, p)
  {
    BitOr(BitOr(ToUint32(ShiftLeft(p.typePreference, 24)), ShiftLeft(LocalPreference(c, p, adjust), 8)),
          ToUint32(256 - c.component))
  }

  /** The sum of section 4.1.2.1. */
  function RfcPriority(typePreference: nat, localPreference: nat, component: int): int {
    0x100_0000 * typePreference + 0x100 * localPreference + (256 - component)
  }

  lemma {:induction false} OrOfDisjointFields(hi: nat, lo: nat, k: nat)
    requires lo < Pow2(k)
    ensures BitOr(ShiftLeft(hi, k), lo) == ShiftLeft(hi, k) + lo
  {
    if k == 0 {
    } else {
      OrOfDisjointFields(hi, lo / 2, k - 1);
    }
  }

  lemma {:induction false} OrOfShifted(a: nat, b: nat, k: nat)
    ensures BitOr(ShiftLeft(a, k), ShiftLeft(b, k)) == ShiftLeft(BitOr(a, b), k)
  {
    if k == 0 {
    } else {
      OrOfShifted(a, b, k - 1);
    }
  }

  lemma ShiftByByte(x: nat, k: nat)
    ensures ShiftLeft(x, k + 8) == 0x100 * ShiftLeft(x, k)
  {
    assert ShiftLeft(x, k + 2) == 4 * ShiftLeft(x, k);
    assert ShiftLeft(x, k + 4) == 4 * ShiftLeft(x, k + 2);
    assert ShiftLeft(x, k + 6) == 4 * ShiftLeft(x, k + 4);
  }

  lemma ShiftsUsed(x: nat)
    ensures ShiftLeft(x, 8) == 0x100 * x && ShiftLeft(x, 16) == 0x1_0000 * x && ShiftLeft(x, 24) == 0x100_0000 * x
    ensures Pow2(8) == 0x100 && Pow2(16) == 0x1_0000 && Pow2(24) == 0x100_0000
  {
    ShiftByByte(x, 0);
    ShiftByByte(x, 8);
    ShiftByByte(x, 16);
  }

  /** The upper two fields, packed. */
  lemma UpperFields(typePreference: nat, localPreference: nat)
    requires typePreference < 256 && localPreference < 0x1_0000
    ensures BitOr(ToUint32(ShiftLeft(typePreference, 24)), ShiftLeft(localPreference, 8))
         == ShiftLeft(typePreference * 0x1_0000 + localPreference, 8)
  {
    ShiftsUsed(typePreference);
    var shifted := ShiftLeft(typePreference, 16);
    ShiftsUsed(shifted);
    assert ToUint32(ShiftLeft(typePreference, 24)) == ShiftLeft(shifted, 8);
    OrOfShifted(shifted, localPreference, 8);
    OrOfDisjointFields(typePreference, localPreference, 16);
  }

  /** The last field joined to the upper two. */
  lemma LastField(upper: nat, component: int)
    requires 0 <= component <= 256
    ensures component != 0 ==> BitOr(ShiftLeft(upper, 8), 256 - component) == 256 * upper + (256 - component)
    ensures component == 0 ==> BitOr(ShiftLeft(upper, 8), 256 - component) == 256 * (upper + 1 - upper % 2)
  {
    ShiftsUsed(upper);
    if component != 0 {
      OrOfDisjointFields(upper, 256 - component, 8);
    } else {
      ShiftsUsed(1);
      ShiftsUsed(BitOr(upper, 1));
      OrOfShifted(upper, 1, 8);
      assert upper > 0 ==> BitOr(upper / 2, 0) == upper / 2;
    }
  }

  /** The code's local preference is the documented sum of network, address and relay preference. */
  lemma LocalPreferenceIsSum(c: Candidate, p: Preferences, adjust: bool)
    requires Demanded(c, p)
    ensures LocalPreference(c, p, adjust)
         == 256 * p.networkAdapter + c.addressPrecedence + p.relay
            + (if adjust && c.relayProtocol == "" then 32 else 0)
    ensures LocalPreference(c, p, adjust) < 0x1_0000
  {
    ShiftsUsed(p.networkAdapter);
    OrOfDisjointFields(p.networkAdapter, c.addressPrecedence, 8);
  }

  lemma {:induction false} OrAndSum(a: nat, b: nat)
    ensures BitOr(a, b) + BitAnd(a, b) == a + b
    ensures BitAnd(a, b) <= a
  {
    if a == 0 || b == 0 {
    } else {
      OrAndSum(a / 2, b / 2);
    }
  }

  /** The upper two fields as the code packs them, for type preferences of any size. */
  function UpperPart(typePreference: nat, local: nat): nat {
    0x100_0000 * (typePreference % 0x100) + 0x100 * local
  }

  lemma UpperPartValue(typePreference: nat, local: nat)
    requires local < 0x1_0000
    ensures BitOr(ToUint32(ShiftLeft(typePreference, 24)), ShiftLeft(local, 8)) == UpperPart(typePreference, local)
    ensures UpperPart(typePreference, local) < UINT32_MODULUS
  {
    hide BitOr, ShiftLeft, Pow2;
    var low := typePreference % 0x100;
    ShiftsUsed(typePreference);
    ShiftsUsed(low);
    TruncatedShift(typePreference);
    RemainderOf(0, 0x100_0000 * low);
    UpperFields(low, local);
    ShiftsUsed(low * 0x1_0000 + local);
  }

  lemma TruncatedShift(typePreference: nat)
    ensures (0x100_0000 * typePreference) % UINT32_MODULUS == 0x100_0000 * (typePreference % 0x100)
  {
    var q, r := typePreference / 0x100, typePreference % 0x100;
    assert 0x100_0000 * typePreference == UINT32_MODULUS * q + 0x100_0000 * r;
    RemainderOf(q, 0x100_0000 * r);
  }

  lemma RemainderOf(q: int, r: nat)
    requires r < UINT32_MODULUS
    ensures (UINT32_MODULUS * q + r) % UINT32_MODULUS == r && (UINT32_MODULUS * q + r) / UINT32_MODULUS == q
  {
  }

  /** What the code computes, whatever the component and the type preference: the fields added up, less
      the bits that the last field shares with the upper two. */
  lemma PriorityValue(c: Candidate, p: Preferences, adjust: bool)
    requires Demanded(c, p)
    ensures var upper, last := UpperPart(p.typePreference, LocalPreference(c, p, adjust)), ToUint32(256 - c.component);
            GetPriority(c, p, adjust) == upper + last - BitAnd(upper, last)
  {
    LocalPreferenceIsSum(c, p, adjust);
    UpperPartValue(p.typePreference, LocalPreference(c, p, adjust));
    OrAndSum(UpperPart(p.typePreference, LocalPreference(c, p, adjust)), ToUint32(256 - c.component));
  }

  /**
   For every component and type preference, the packed value is the RFC's sum exactly when the last
   field shares no bit with the upper two, and what the 32 bits cut off the type preference is what
   they add to a negative last field. The latter is so whenever neither happens: type preferences
   below 256 and components up to 256.
   */
  lemma PriorityIsRfcSum(c: Candidate, p: Preferences, adjust: bool)
    requires Demanded(c, p)
    ensures GetPriority(c, p, adjust) == RfcPriority(p.typePreference, LocalPreference(c, p, adjust), c.component)
        <==> && BitAnd(UpperPart(p.typePreference, LocalPreference(c, p, adjust)), ToUint32(256 - c.component)) == 0
             && p.typePreference / 0x100 + (256 - c.component) / UINT32_MODULUS == 0
  {
    var local := LocalPreference(c, p, adjust);
    var upper, last := UpperPart(p.typePreference, local), ToUint32(256 - c.component);
    PriorityValue(c, p, adjust);
    LocalPreferenceIsSum(c, p, adjust);
    UpperPartValue(p.typePreference, local);
    OrAndSum(upper, last);
    SumInParts(p.typePreference, local, c.component);
    SmallMultiple(p.typePreference / 0x100 + (256 - c.component) / UINT32_MODULUS, BitAnd(upper, last));
  }

  lemma SumInParts(typePreference: nat, local: nat, component: int)
    ensures RfcPriority(typePreference, local, component)
         == UpperPart(typePreference, local) + ToUint32(256 - component)
            + UINT32_MODULUS * (typePreference / 0x100 + (256 - component) / UINT32_MODULUS)
  {
    assert typePreference == 0x100 * (typePreference / 0x100) + typePreference % 0x100;
    var x := 256 - component;
    assert x == UINT32_MODULUS * (x / UINT32_MODULUS) + x % UINT32_MODULUS;
  }

  lemma SmallMultiple(k: int, shared: nat)
    requires shared < UINT32_MODULUS
    ensures UINT32_MODULUS * k + shared == 0 <==> k == 0 && shared == 0
  {
  }

  /** The same for the components and type preferences that fit their fields. */
  lemma PriorityInRange(c: Candidate, p: Preferences, adjust: bool)
    requires Demanded(c, p) && p.typePreference < 256 && 0 <= c.component <= 256
    ensures GetPriority(c, p, adjust)
         == 0x100_0000 * p.typePreference + 0x100 * LocalPreference(c, p, adjust)
            + (if c.component == 0 && LocalPreference(c, p, adjust) % 2 == 1 then 0 else 256 - c.component)
    ensures GetPriority(c, p, adjust) == RfcPriority(p.typePreference, LocalPreference(c, p, adjust), c.component)
        <==> c.component != 0 || LocalPreference(c, p, adjust) % 2 == 0
  {
    LocalPreferenceIsSum(c, p, adjust);
    PackedValue(p.typePreference, LocalPreference(c, p, adjust), c.component);
  }

  /** Component 0 with an odd local preference: the last field, 256, is merged into the local preference. */
  lemma ComponentZeroLosesABit()
    ensures var c, p := Candidate(0, 35, ""), Preferences(126, 2, 0);
            && Demanded(c, p) && LocalPreference(c, p, false) == 547
            && GetPriority(c, p, false) == RfcPriority(126, 547, 0) - 256
  {
    var c, p := Candidate(0, 35, ""), Preferences(126, 2, 0);
    ShiftsUsed(2);
    OrOfDisjointFields(2, 35, 8);
    PriorityInRange(c, p, false);
  }

  /** Component 257: the last field is negative, and all bits of the priority are set. */
  lemma ComponentBeyondRangeSetsEveryBit(p: Preferences)
    requires Demanded(Candidate(257, 35, ""), p)
    ensures GetPriority(Candidate(257, 35, ""), p, false) == 0xFFFF_FFFF
  {
    var c := Candidate(257, 35, "");
    var local := LocalPreference(c, p, false);
    var upper := UpperPart(p.typePreference, local);
    PriorityValue(c, p, false);
    LocalPreferenceIsSum(c, p, false);
    UpperPartValue(p.typePreference, local);
    OnesShift(32);
    AndWithOnes(upper, 32);
  }

  lemma {:induction false} AndWithOnes(a: nat, k: nat)
    requires a < Pow2(k)
    ensures BitAnd(a, Pow2(k) - 1) == a
  {
    if k == 0 {
    } else {
      AndWithOnes(a / 2, k - 1);
    }
  }

  lemma OnesShift(k: nat)
    requires k == 32
    ensures Pow2(k) == UINT32_MODULUS
  {
    assert Pow2(8) == 0x100;
    Pow2ByByte(8);
    Pow2ByByte(16);
    Pow2ByByte(24);
  }

  lemma Pow2ByByte(k: nat)
    ensures Pow2(k + 8) == 0x100 * Pow2(k)
  {
    assert Pow2(k + 2) == 4 * Pow2(k);
    assert Pow2(k + 4) == 4 * Pow2(k + 2);
    assert Pow2(k + 6) == 4 * Pow2(k + 4);
  }

  lemma PackedValue(typePreference: nat, local: nat, component: int)
    requires typePreference < 256 && local < 0x1_0000 && 0 <= component <= 256
    ensures BitOr(BitOr(ToUint32(ShiftLeft(typePreference, 24)), ShiftLeft(local, 8)), ToUint32(256 - component))
         == 0x100_0000 * typePreference + 0x100 * local
            + (if component == 0 && local % 2 == 1 then 0 else 256 - component)
  {
    var upper := typePreference * 0x1_0000 + local;
    UpperFields(typePreference, local);
    LastField(upper, component);
    SmallArithmetic(typePreference, local, component);
  }

  lemma SmallArithmetic(typePreference: nat, local: nat, component: int)
    requires 0 <= component <= 256
    ensures ToUint32(256 - component) == 256 - component
    ensures (typePreference * 0x1_0000 + local) % 2 == local % 2
  {
  }

  lemma SumsCompareByField(t1: nat, l1: nat, c1: int, t2: nat, l2: nat, c2: int)
    requires l1 < 0x1_0000 && l2 < 0x1_0000 && 1 <= c1 <= 256 && 1 <= c2 <= 256
    ensures RfcPriority(t1, l1, c1) < RfcPriority(t2, l2, c2) <==>
            t1 < t2 || (t1 == t2 && (l1 < l2 || (l1 == l2 && c1 > c2)))
  {
  }

  /** The three fields can be read back from a priority. */
  lemma PriorityDecodes(c: Candidate, p: Preferences, adjust: bool)
    requires Demanded(c, p) && p.typePreference < 256 && 1 <= c.component <= 256
    ensures var q := GetPriority(c, p, adjust);
            && q < UINT32_MODULUS
            && q / 0x100_0000 == p.typePreference
            && q / 0x100 % 0x1_0000 == LocalPreference(c, p, adjust)
            && 256 - q % 0x100 == c.component
  {
    PriorityInRange(c, p, adjust);
    LocalPreferenceIsSum(c, p, adjust);
    FieldsOfSum(p.typePreference, LocalPreference(c, p, adjust), 256 - c.component);
  }

  lemma FieldsOfSum(high: nat, middle: nat, low: nat)
    requires middle < 0x1_0000 && low < 0x100
    ensures var q := 0x100_0000 * high + 0x100 * middle + low;
            q / 0x100_0000 == high && q / 0x100 % 0x1_0000 == middle && q % 0x100 == low
  {
    var q := 0x100_0000 * high + 0x100 * middle + low;
    assert q / 0x100 == 0x1_0000 * high + middle;
  }

  /** Priorities compare by type preference, then local preference, then lower component first. */
  lemma PriorityOrder(c1: Candidate, p1: Preferences, adjust1: bool, c2: Candidate, p2: Preferences, adjust2: bool)
    requires Demanded(c1, p1) && p1.typePreference < 256 && 1 <= c1.component <= 256
    requires Demanded(c2, p2) && p2.typePreference < 256 && 1 <= c2.component <= 256
    ensures var l1, l2 := LocalPreference(c1, p1, adjust1), LocalPreference(c2, p2, adjust2);
            GetPriority(c1, p1, adjust1) < GetPriority(c2, p2, adjust2) <==>
              || p1.typePreference < p2.typePreference
              || (p1.typePreference == p2.typePreference && l1 < l2)
              || (p1.typePreference == p2.typePreference && l1 == l2 && c1.component > c2.component)
  {
    PriorityInRange(c1, p1, adjust1);
    PriorityInRange(c2, p2, adjust2);
    var l1, l2 := LocalPreference(c1, p1, adjust1), LocalPreference(c2, p2, adjust2);
    LocalPreferenceIsSum(c1, p1, adjust1);
    LocalPreferenceIsSum(c2, p2, adjust2);
    SumsCompareByField(p1.typePreference, l1, c1.component, p2.typePreference, l2, c2.component);
  }

  /** The PRIORITY attribute of a connectivity check, section 7.1.2.1: the priority with the
      peer-reflexive type preference in place of the candidate's own. */
  function StunPriority(priority: nat, peerReflexivePreference: nat): nat {
    BitOr(ShiftLeft(peerReflexivePreference, 24), priority % 0x100_0000)
  }

  lemma LowBits(hi: nat, lo: nat)
    requires lo < 0x100_0000
    ensures (0x100_0000 * hi + lo) % 0x100_0000 == lo
  {
  }

  lemma StunPriorityValue(c: Candidate, p: Preferences, adjust: bool, peerReflexive: nat)
    requires Demanded(c, p) && p.typePreference < 256 && 1 <= c.component <= 256
    ensures StunPriority(GetPriority(c, p, adjust), peerReflexive)
         == RfcPriority(peerReflexive, LocalPreference(c, p, adjust), c.component)
  {
    PriorityInRange(c, p, adjust);
    LocalPreferenceIsSum(c, p, adjust);
    LowBits(p.typePreference, 0x100 * LocalPreference(c, p, adjust) + (256 - c.component));
    PeerReflexiveField(peerReflexive, 0x100 * LocalPreference(c, p, adjust) + (256 - c.component));
  }

  lemma PeerReflexiveField(peerReflexive: nat, lo: nat)
    requires lo < 0x100_0000
    ensures BitOr(ShiftLeft(peerReflexive, 24), lo) == 0x100_0000 * peerReflexive + lo
  {
    ShiftsUsed(peerReflexive);
    OrOfDisjointFields(peerReflexive, lo, 24);
  }

  /**
   A relay candidate against a non-relay candidate that differs from it only in type and in having
   no relay preference: with the adjustment the relay candidate's STUN priority is not the higher
   one exactly when its relay preference is at most 32, without it only when it is 0.
   */
  lemma RelayDoesNotOutrank(relay: Candidate, rp: Preferences, other: Candidate, op: Preferences,
                            adjust: bool, peerReflexive: nat)
    requires Demanded(relay, rp) && rp.typePreference < 256 && 1 <= relay.component <= 256
    requires Demanded(other, op) && op.typePreference < 256
    requires relay.relayProtocol != "" && other.relayProtocol == "" && op.relay == 0
    requires relay.component == other.component && relay.addressPrecedence == other.addressPrecedence
    requires rp.networkAdapter == op.networkAdapter
    ensures StunPriority(GetPriority(relay, rp, adjust), peerReflexive)
              <= StunPriority(GetPriority(other, op, adjust), peerReflexive)
        <==> rp.relay <= if adjust then 32 else 0
  {
    StunPriorityValue(relay, rp, adjust, peerReflexive);
    StunPriorityValue(other, op, adjust, peerReflexive);
    LocalPreferenceIsSum(relay, rp, adjust);
    LocalPreferenceIsSum(other, op, adjust);
  }
}
