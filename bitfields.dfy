/**
  The register bit-fields behind the VRC7 and EPSM instrument parameters
  (InstrumentParamProvider.GetParams, ParamProviders.cs). Each parameter is a
  field of one patch register, described by the register index, a mask and
  a shift. Reading a parameter takes the masked bits of its register down to
  bit 0; writing it clears the masked bits and ors in the value moved up by
  the shift and cut to the mask.

  Registers are bytes (`bv8`). The value `v` is a C# int: only its low byte
  can reach the masked bits (the mask is at most 0xff and the shift below 8),
  so the model takes the low byte of `v` in two's complement (`LowByte`) and
  shifts that.
 */
module BitFields {

  /** A shift amount of the fields: 0 to 7. */
  type Shift = s: bv8 | s < 8

  datatype RegField = RegField(reg: nat, mask: bv8, shift: Shift)

  /** The largest value the field holds: its mask moved down to bit 0. */
  function MaxValue(f: RegField): bv8
  {
    f.mask >> f.shift
  }

  /** The mask is one non-empty run of bits starting at bit `shift`. */
  predicate WellFormed(f: RegField)
  {
    && f.mask != 0
    && MaxValue(f) << f.shift == f.mask
    && MaxValue(f) & (MaxValue(f) + 1) == 0
  }

  /** A number 0..15 as a bit-vector, one bit at a time from the top. */
  function Nibble(u: int): bv8
  {
    var u2 := if u >= 8 then u - 8 else u;
    var u1 := if u2 >= 4 then u2 - 4 else u2;
    var u0 := if u1 >= 2 then u1 - 2 else u1;
    (if u >= 8 then 0x08 else 0) | (if u2 >= 4 then 0x04 else 0) | (if u1 >= 2 then 0x02 else 0) | (if u0 >= 1 then 0x01 else 0)
  }

  /** The low byte of an int in two's complement (what `(v << shift) & mask` can see of `v`). */
  function LowByte(v: int): bv8
  {
    var u := v % 256;
    (Nibble(u / 16) << 4) | Nibble(u % 16)
  }

  /** The field's bits of register value `r`, moved down to bit 0. */
  function GetField(f: RegField, r: bv8): (g: bv8)
    ensures g <= MaxValue(f)
  {
    MaskedAtMostMask(r, f.mask, f.shift);
    (r & f.mask) >> f.shift
  }

  /** GetValue: the field as the int the parameter reports. */
  function FieldValue(f: RegField, r: bv8): (v: int)
    ensures 0 <= v <= MaxValue(f) as int
  {
    MaskedAtMostMask(r, f.mask, f.shift);
    BvLeAsInt(GetField(f, r), MaxValue(f));
    GetField(f, r) as int
  }

  /** The register with the field's bits replaced by the low bits of `b`. */
  function SetField(f: RegField, r: bv8, b: bv8): bv8
  {
    (r & !f.mask) | ((b << f.shift) & f.mask)
  }

  /** SetValue: the new register value for parameter value `v`. */
  function SetFieldValue(f: RegField, r: bv8, v: int): (s: bv8)
    ensures s & !f.mask == r & !f.mask
  {
    OutsideMask(r, f.mask, f.shift, LowByte(v));
    SetField(f, r, LowByte(v))
  }

  // ---------------------------------------------------------------------------
  // Facts about bytes.

  lemma MaskedAtMostMask(r: bv8, m: bv8, s: bv8)
    requires s < 8
    ensures (r & m) >> s <= m >> s
  {
  }

  lemma BvLeAsInt(a: bv8, b: bv8)
    requires a <= b
    ensures a as int <= b as int
  {
  }

  lemma NibbleValue(u: int)
    requires 0 <= u < 16
    ensures Nibble(u) as int == u && Nibble(u) < 16
  {
  }

  lemma JoinNibbles(h: bv8, l: bv8)
    requires h < 16 && l < 16
    ensures ((h << 4) | l) as int == 16 * (h as int) + l as int
  {
  }

  /** The low byte is `v` modulo 256, negative `v` included (two's complement). */
  lemma LowByteValue(v: int)
    ensures LowByte(v) as int == v % 256
  {
    var u := v % 256;
    NibbleValue(u / 16);
    NibbleValue(u % 16);
    JoinNibbles(Nibble(u / 16), Nibble(u % 16));
  }

  /** On 0..255 the low byte is the number itself. */
  lemma LowByteOfByte(v: int)
    requires 0 <= v < 256
    ensures LowByte(v) as int == v
  {
    LowByteValue(v);
    SmallModulo(v);
  }

  lemma SmallModulo(v: int)
    requires 0 <= v < 256
    ensures v % 256 == v
  {
  }

  lemma SameAsInt(a: bv8, b: bv8)
    requires a as int == b as int
    ensures a == b
  {
  }

  lemma ClearedBitsUntouched(r: bv8, m1: bv8, m2: bv8, s: bv8, b: bv8)
    requires s < 8 && m1 & m2 == 0
    ensures ((r & !m1) | ((b << s) & m1)) & m2 == r & m2
  {
  }

  lemma InsertedBits(r: bv8, m: bv8, s: bv8, b: bv8)
    requires s < 8 && (m >> s) << s == m
    ensures (((r & !m) | ((b << s) & m)) & m) >> s == b & (m >> s)
  {
  }

  lemma OutsideMask(r: bv8, m: bv8, s: bv8, b: bv8)
    requires s < 8
    ensures ((r & !m) | ((b << s) & m)) & !m == r & !m
  {
  }

  lemma ReinsertedBits(r: bv8, m: bv8, s: bv8)
    requires s < 8 && (m >> s) << s == m
    ensures (r & !m) | ((((r & m) >> s) << s) & m) == r
  {
  }

  lemma ContiguousLowBits(b: bv8, mx: bv8)
    requires b <= mx && mx & (mx + 1) == 0
    ensures b & mx == b
  {
  }

  // ---------------------------------------------------------------------------
  // The parameter contract.

  /** SetValue changes no bit of the register outside the field's mask. */
  lemma SetKeepsOtherBits(f: RegField, r: bv8, v: int)
    ensures SetFieldValue(f, r, v) & !f.mask == r & !f.mask
  {
    OutsideMask(r, f.mask, f.shift, LowByte(v));
  }

  /** Setting one field never changes the value of a field with a disjoint mask. */
  lemma SetKeepsOtherFields(f: RegField, g: RegField, r: bv8, v: int)
    requires f.mask & g.mask == 0
    ensures FieldValue(g, SetFieldValue(f, r, v)) == FieldValue(g, r)
  {
    FieldUntouched(f, g, r, LowByte(v));
  }

  lemma FieldUntouched(f: RegField, g: RegField, r: bv8, b: bv8)
    requires f.mask & g.mask == 0
    ensures GetField(g, SetField(f, r, b)) == GetField(g, r)
  {
    ClearedBitsUntouched(r, f.mask, g.mask, f.shift, b);
  }

  /** Whatever `v`, the field afterwards holds the low bits of `v` that fit its mask. */
  lemma SetTruncates(f: RegField, r: bv8, v: int)
    requires WellFormed(f)
    ensures GetField(f, SetFieldValue(f, r, v)) == LowByte(v) & MaxValue(f)
  {
    FieldInserted(f, r, LowByte(v));
  }

  lemma FieldInserted(f: RegField, r: bv8, b: bv8)
    requires WellFormed(f)
    ensures GetField(f, SetField(f, r, b)) == b & MaxValue(f)
  {
    InsertedBits(r, f.mask, f.shift, b);
  }

  /** GetValue after SetValue(v) gives back `v` for every `v` in 0..MaxValue. */
  lemma GetAfterSet(f: RegField, r: bv8, v: int)
    requires WellFormed(f) && 0 <= v <= MaxValue(f) as int
    ensures FieldValue(f, SetFieldValue(f, r, v)) == v
  {
    var b := LowByte(v);
    LowByteOfByte(v);
    if !(b <= MaxValue(f)) {
      BvLeAsInt(MaxValue(f), b);
    }
    SetTruncates(f, r, v);
    ContiguousLowBits(b, MaxValue(f));
  }

  lemma FieldReinserted(f: RegField, r: bv8)
    requires WellFormed(f)
    ensures SetField(f, r, GetField(f, r)) == r
  {
    ReinsertedBits(r, f.mask, f.shift);
  }

  /** SetValue with the value GetValue reports leaves the register as it was. */
  lemma SetCurrentValueKeepsRegister(f: RegField, r: bv8)
    requires WellFormed(f)
    ensures SetFieldValue(f, r, FieldValue(f, r)) == r
  {
    var b := GetField(f, r);
    LowByteOfByte(b as int);
    SameAsInt(LowByte(b as int), b);
    FieldReinserted(f, r);
  }
}
