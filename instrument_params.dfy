/**
  InstrumentParamProvider (ParamProviders.cs): the list of editable
  parameters of an instrument and what reading and writing each of them does
  to the instrument.

  The VRC7 and EPSM parameters are bit-fields of the instrument's patch
  registers; their descriptors are tabulated here (`Vrc7Field`,
  `EpsmGlobalField`, `OperatorField`) in the order GetParams adds them. The
  default of each is its field read from the registers of patch 1, which
  live in another class and are an input (`Presets`), as are the FDS/N163
  wave preset count and indices.
 */
module InstrumentParams {
  import opened Utils
  import opened Params
  import opened BitFields

  datatype ExpansionType = NoExpansion | Vrc6 | Vrc7 | Fds | Mmc5 | N163 | S5B | Epsm

  /** The two expansions whose parameters are register bit-fields. */
  datatype Chip = Vrc7Chip | EpsmChip

  /** What a parameter's GetValue/SetValue delegates act on. */
  datatype ParamKind =
    | PitchEnvelope                       // the pitch envelope's Relative flag
    | Property                            // an FDS, N163 or VRC6 property of the instrument
    | CustomDraw                          // a drawing-only row: reads 0, cannot be set
    | Patch(chip: Chip)                   // the Vrc7Patch or EpsmPatch index
    | Register(chip: Chip, field: RegField)

  datatype Param = Param(info: ParamInfo, kind: ParamKind)

  datatype FieldEntry = FieldEntry(name: string, tabName: string, field: RegField, maxValue: int)

  /** Data of other classes the list reads: the wave preset count and two of its indices, and the registers of patch 1. */
  datatype Presets = Presets(wavePresetCount: int, sine: int, flat: int, vrc7Patch1: seq<bv8>, epsmPatch1: seq<bv8>)

  predicate HasPatchData(d: Presets)
  {
    |d.vrc7Patch1| >= 8 && |d.epsmPatch1| >= 31
  }

  function PatchData(d: Presets, chip: Chip): seq<bv8>
  {
    if chip == Vrc7Chip then d.vrc7Patch1 else d.epsmPatch1
  }

  /** Two fields that cannot see each other's bits. */
  predicate Disjoint(f: RegField, g: RegField)
  {
    f.reg != g.reg || f.mask & g.mask == 0
  }

  // ---------------------------------------------------------------------------
  // The register tables.

  /** The 24 VRC7 fields, carrier first, then modulator. */
  function Vrc7Field(k: nat): (e: FieldEntry)
    requires k < 24
    ensures e.field.reg < 8 && WellFormed(e.field) && e.maxValue == MaxValue(e.field) as int
  {
    match k
    case 0 => FieldEntry("Tremolo", "Carrier", RegField(1, 0x80, 7), 1)
    case 1 => FieldEntry("Vibrato", "Carrier", RegField(1, 0x40, 6), 1)
    case 2 => FieldEntry("Sustained", "Carrier", RegField(1, 0x20, 5), 1)
    case 3 => FieldEntry("Wave Rectified", "Carrier", RegField(3, 0x10, 4), 1)
    case 4 => FieldEntry("KeyScaling", "Carrier", RegField(1, 0x10, 4), 1)
    case 5 => FieldEntry("KeyScaling Level", "Carrier", RegField(3, 0xc0, 6), 3)
    case 6 => FieldEntry("FreqMultiplier", "Carrier", RegField(1, 0x0f, 0), 15)
    case 7 => FieldEntry("Attack", "Carrier", RegField(5, 0xf0, 4), 15)
    case 8 => FieldEntry("Decay", "Carrier", RegField(5, 0x0f, 0), 15)
    case 9 => FieldEntry("Sustain", "Carrier", RegField(7, 0xf0, 4), 15)
    case 10 => FieldEntry("Release", "Carrier", RegField(7, 0x0f, 0), 15)
    case 11 => FieldEntry("Tremolo", "Modulator", RegField(0, 0x80, 7), 1)
    case 12 => FieldEntry("Vibrato", "Modulator", RegField(0, 0x40, 6), 1)
    case 13 => FieldEntry("Sustained", "Modulator", RegField(0, 0x20, 5), 1)
    case 14 => FieldEntry("Wave Rectified", "Modulator", RegField(3, 0x08, 3), 1)
    case 15 => FieldEntry("KeyScaling", "Modulator", RegField(0, 0x10, 4), 1)
    case 16 => FieldEntry("KeyScaling Level", "Modulator", RegField(2, 0xc0, 6), 3)
    case 17 => FieldEntry("FreqMultiplier", "Modulator", RegField(0, 0x0f, 0), 15)
    case 18 => FieldEntry("Attack", "Modulator", RegField(4, 0xf0, 4), 15)
    case 19 => FieldEntry("Decay", "Modulator", RegField(4, 0x0f, 0), 15)
    case 20 => FieldEntry("Sustain", "Modulator", RegField(6, 0xf0, 4), 15)
    case 21 => FieldEntry("Release", "Modulator", RegField(6, 0x0f, 0), 15)
    case 22 => FieldEntry("Level", "Modulator", RegField(2, 0x3f, 0), 63)
    case _ => FieldEntry("Feedback", "Modulator", RegField(3, 0x07, 0), 7)
  }

  /** The 8 EPSM fields shared by all operators (registers 0, 1 and 30). */
  function EpsmGlobalField(k: nat): (e: FieldEntry)
    requires k < 8
    ensures e.field.reg == 0 || e.field.reg == 1 || e.field.reg == 30
    ensures WellFormed(e.field) && e.maxValue == MaxValue(e.field) as int
  {
    match k
    case 0 => FieldEntry("Algorithm", "", RegField(0, 0x07, 0), 7)
    case 1 => FieldEntry("Feedback", "", RegField(0, 0x38, 3), 7)
    case 2 => FieldEntry("Left", "", RegField(1, 0x80, 7), 1)
    case 3 => FieldEntry("Right", "", RegField(1, 0x40, 6), 1)
    case 4 => FieldEntry("AMS", "", RegField(1, 0x30, 4), 3)
    case 5 => FieldEntry("PMS", "", RegField(1, 0x07, 0), 7)
    case 6 => FieldEntry(" LF Oscillator EN", "", RegField(30, 0x08, 3), 1)
    case _ => FieldEntry(" LF Oscillator", "", RegField(30, 0x07, 0), 7)
  }

  /** The 12 fields of an EPSM operator, with registers relative to operator 0. */
  function OperatorField(k: nat): (e: FieldEntry)
    requires k < 12
    ensures 2 <= e.field.reg <= 8
    ensures WellFormed(e.field) && e.maxValue == MaxValue(e.field) as int
  {
    match k
    case 0 => FieldEntry("Detune", "", RegField(2, 0x70, 4), 7)
    case 1 => FieldEntry("Frequency Ratio", "", RegField(2, 0x0f, 0), 15)
    case 2 => FieldEntry("Volume", "", RegField(3, 0x7f, 0), 127)
    case 3 => FieldEntry("Key Scale", "", RegField(4, 0xc0, 6), 3)
    case 4 => FieldEntry("Attack Rate", "", RegField(4, 0x1f, 0), 31)
    case 5 => FieldEntry("Amplitude Modulation", "", RegField(5, 0x80, 7), 1)
    case 6 => FieldEntry("Decay Rate", "", RegField(5, 0x1f, 0), 31)
    case 7 => FieldEntry("Sustain Rate", "", RegField(6, 0x1f, 0), 31)
    case 8 => FieldEntry("Sustain Level", "", RegField(7, 0xf0, 4), 15)
    case 9 => FieldEntry("Release Rate", "", RegField(7, 0x0f, 0), 15)
    case 10 => FieldEntry("SSG-Envelope EN", "", RegField(8, 0x08, 3), 1)
    case _ => FieldEntry("SSG-Envelope", "", RegField(8, 0x07, 0), 7)
  }

  /** The tab of operator `i`: "OP1" to "OP4". */
  function OperatorTab(i: nat): string
    requires i < 4
  {
    "OP" + [(49 + i) as char]
  }

  /** Field `k` of operator `i`: its register is moved up by 7 per operator. */
  function OperatorFieldAt(k: nat, i: nat): (e: FieldEntry)
    requires k < 12 && i < 4
    ensures 2 + 7 * i <= e.field.reg <= 8 + 7 * i
    ensures e.field.mask == OperatorField(k).field.mask && e.field.shift == OperatorField(k).field.shift
    ensures WellFormed(e.field) && e.maxValue == MaxValue(e.field) as int
  {
    var base := OperatorField(k);
    base.(tabName := OperatorTab(i), field := base.field.(reg := base.field.reg + 7 * i))
  }

  /** All 56 EPSM fields in list order: the 8 global ones, then 12 per operator. */
  function EpsmField(k: nat): (e: FieldEntry)
    requires k < 56
    ensures e.field.reg < 31 && WellFormed(e.field) && e.maxValue == MaxValue(e.field) as int
  {
    if k < 8 then EpsmGlobalField(k) else OperatorFieldAt((k - 8) % 12, (k - 8) / 12)
  }

  // ---------------------------------------------------------------------------
  // Fields sharing a register never overlap.

  lemma Vrc7FirstRowsDisjoint()
    ensures forall i, j :: 0 <= i < j < 24 && i < 6 ==> Disjoint(Vrc7Field(i).field, Vrc7Field(j).field)
  {
  }

  lemma Vrc7MiddleRowsDisjoint()
    ensures forall i, j :: 6 <= i < j < 24 && i < 12 ==> Disjoint(Vrc7Field(i).field, Vrc7Field(j).field)
  {
  }

  lemma Vrc7LastRowsDisjoint()
    ensures forall i, j :: 12 <= i < j < 24 ==> Disjoint(Vrc7Field(i).field, Vrc7Field(j).field)
  {
  }

  /** Any two VRC7 parameters either use different registers or disjoint masks. */
  lemma Vrc7FieldsDisjoint()
    ensures forall i, j :: 0 <= i < 24 && 0 <= j < 24 && i != j ==> Disjoint(Vrc7Field(i).field, Vrc7Field(j).field)
  {
    Vrc7FirstRowsDisjoint();
    Vrc7MiddleRowsDisjoint();
    Vrc7LastRowsDisjoint();
  }

  lemma EpsmGlobalFieldsDisjoint()
    ensures forall i, j :: 0 <= i < j < 8 ==> Disjoint(EpsmGlobalField(i).field, EpsmGlobalField(j).field)
  {
  }

  lemma OperatorFieldsDisjoint()
    ensures forall i, j :: 0 <= i < j < 12 ==> Disjoint(OperatorField(i).field, OperatorField(j).field)
  {
  }

  /** Operator `i` uses only registers 2+7i..8+7i: none of another operator's and none of the global registers. */
  lemma OperatorRegistersSeparate(k: nat, i: nat, l: nat, j: nat)
    requires k < 12 && i < 4 && l < 12 && j < 4
    ensures i != j ==> OperatorFieldAt(k, i).field.reg != OperatorFieldAt(l, j).field.reg
    ensures OperatorFieldAt(k, i).field.reg !in {0, 1, 30}
  {
  }

  /** A global field and an operator field never share a register. */
  lemma GlobalAndOperatorDisjoint(g: nat, k: nat, i: nat)
    requires g < 8 && k < 12 && i < 4
    ensures Disjoint(EpsmGlobalField(g).field, OperatorFieldAt(k, i).field)
  {
    OperatorRegistersSeparate(k, i, 0, 0);
  }

  /** Two different fields of the same operator share no bit. */
  lemma SameOperatorDisjoint(k: nat, l: nat, i: nat)
    requires k < 12 && l < 12 && i < 4 && k != l
    ensures Disjoint(OperatorFieldAt(k, i).field, OperatorFieldAt(l, i).field)
  {
    OperatorFieldsDisjoint();
    if k < l {
      assert Disjoint(OperatorField(k).field, OperatorField(l).field);
    } else {
      assert Disjoint(OperatorField(l).field, OperatorField(k).field);
    }
  }

  /** Position `a` of the list past the 8 global fields is field (a - 8) % 12 of operator (a - 8) / 12. */
  lemma OperatorPosition(a: nat)
    requires 8 <= a < 56
    ensures (a - 8) / 12 < 4 && a - 8 == 12 * ((a - 8) / 12) + (a - 8) % 12
    ensures EpsmField(a) == OperatorFieldAt((a - 8) % 12, (a - 8) / 12)
  {
  }

  /** Any two EPSM parameters either use different registers or disjoint masks. */
  lemma EpsmFieldsDisjoint(a: nat, b: nat)
    requires a < 56 && b < 56 && a != b
    ensures Disjoint(EpsmField(a).field, EpsmField(b).field)
  {
    if a < 8 && b < 8 {
      EpsmGlobalFieldsDisjoint();
    } else if a < 8 {
      OperatorPosition(b);
      GlobalAndOperatorDisjoint(a, (b - 8) % 12, (b - 8) / 12);
    } else if b < 8 {
      OperatorPosition(a);
      GlobalAndOperatorDisjoint(b, (a - 8) % 12, (a - 8) / 12);
    } else {
      OperatorPosition(a);
      OperatorPosition(b);
      var k, i := (a - 8) % 12, (a - 8) / 12;
      var l, j := (b - 8) % 12, (b - 8) / 12;
      if i == j {
        SameOperatorDisjoint(k, l, i);
      } else {
        OperatorRegistersSeparate(k, i, l, j);
      }
    }
  }

  // ---------------------------------------------------------------------------
  // The parameter list.

  function RegisterParam(chip: Chip, e: FieldEntry, patch1: seq<bv8>): Param
    requires e.field.reg < |patch1|
  {
    Param(ParamInfo(e.name, 0, e.maxValue, FieldValue(e.field, patch1[e.field.reg]), false, 1, e.tabName), Register(chip, e.field))
  }

  function PropertyParam(name: string, minValue: int, maxValue: int, defaultValue: int, isList: bool, snapValue: int): Param
  {
    Param(ParamInfo(name, minValue, maxValue, defaultValue, isList, snapValue, ""), Property)
  }

  function CustomDrawParam(tabName: string): Param
  {
    Param(ParamInfo("", 0, 0, 0, false, 1, tabName), CustomDraw)
  }

  const PitchEnvelopeParam: Param := Param(ParamInfo("Pitch Envelope", 0, 1, 0, true, 1, ""), PitchEnvelope)

  function FdsParams(d: Presets): (r: seq<Param>)
    ensures |r| == 6
  {
    [ PropertyParam("Master Volume", 0, 3, 0, true, 1),
      PropertyParam("Wave Preset", 0, d.wavePresetCount - 1, d.sine, true, 1),
      PropertyParam("Mod Preset", 0, d.wavePresetCount - 1, d.flat, true, 1),
      PropertyParam("Mod Speed", 0, 4095, 0, false, 1),
      PropertyParam("Mod Depth", 0, 63, 0, false, 1),
      PropertyParam("Mod Delay", 0, 255, 0, false, 1) ]
  }

  function N163Params(d: Presets): (r: seq<Param>)
    ensures |r| == 3
  {
    [ PropertyParam("Wave Preset", 0, d.wavePresetCount - 1, d.sine, true, 1),
      PropertyParam("Wave Size", 4, 248, 16, false, 4),
      PropertyParam("Wave Position", 0, 244, 0, false, 4) ]
  }

  const Vrc6Params: seq<Param> := [PropertyParam("Saw Master Volume", 0, 2, 0, true, 1)]

  function Vrc7Params(d: Presets): (r: seq<Param>)
    requires HasPatchData(d)
    ensures |r| == 26
  {
    [CustomDrawParam(""), Param(ParamInfo("Patch", 0, 15, 1, true, 1, ""), Patch(Vrc7Chip))] + Vrc7FieldParams(d)
  }

  function Vrc7FieldParams(d: Presets): (r: seq<Param>)
    requires HasPatchData(d)
    ensures |r| == 24
  {
    seq(24, k requires 0 <= k < 24 => RegisterParam(Vrc7Chip, Vrc7Field(k), d.vrc7Patch1))
  }

  /** The EPSM parameters before the operator loop. */
  function EpsmHeader(d: Presets): (r: seq<Param>)
    requires HasPatchData(d)
    ensures |r| == 10
  {
    [Param(ParamInfo("Patch", 0, 1, 1, true, 1, ""), Patch(EpsmChip)), CustomDrawParam("")] + EpsmGlobalParams(d)
  }

  function EpsmGlobalParams(d: Presets): (r: seq<Param>)
    requires HasPatchData(d)
    ensures |r| == 8
  {
    seq(8, k requires 0 <= k < 8 => RegisterParam(EpsmChip, EpsmGlobalField(k), d.epsmPatch1))
  }

  /**
    Where the default of an operator's Detune is read from: patch-1 byte
    2 + 6i, as GetParams does, or the field's own byte 2 + 7i, as every other
    operator field does.
   */
  datatype DetuneRead = SixStride | OwnRegister

  /** One iteration of the operator loop: the drawing row and the 12 fields of operator `i`. */
  function OperatorParams(i: nat, d: Presets, src: DetuneRead): (r: seq<Param>)
    requires i < 4 && HasPatchData(d)
    ensures |r| == 13
  {
    [CustomDrawParam(OperatorTab(i))] + OperatorFieldParams(i, d, src)
  }

  function OperatorFieldParams(i: nat, d: Presets, src: DetuneRead): (r: seq<Param>)
    requires i < 4 && HasPatchData(d)
    ensures |r| == 12
  {
    seq(12, k requires 0 <= k < 12 => OperatorFieldParam(k, i, d, src))
  }

  /** Field `k` of operator `i` as a parameter; only the Detune default depends on `src`. */
  function OperatorFieldParam(k: nat, i: nat, d: Presets, src: DetuneRead): Param
    requires k < 12 && i < 4 && HasPatchData(d)
  {
    var p := RegisterParam(EpsmChip, OperatorFieldAt(k, i), d.epsmPatch1);
    if k == 0 && src == SixStride then p.(info := p.info.(defaultValue := DetuneDefaultAsWritten(i, d.epsmPatch1))) else p
  }

  /** The first `n` iterations of the operator loop. */
  function OperatorsParams(n: nat, d: Presets, src: DetuneRead): (r: seq<Param>)
    requires n <= 4 && HasPatchData(d)
    ensures |r| == 13 * n
  {
    if n == 0 then [] else OperatorsParams(n - 1, d, src) + OperatorParams(n - 1, d, src)
  }

  function ExpansionParams(expansion: ExpansionType, d: Presets, src: DetuneRead): seq<Param>
    requires HasPatchData(d)
  {
    match expansion
    case Fds => FdsParams(d)
    case N163 => N163Params(d)
    case Vrc6 => Vrc6Params
    case Vrc7 => Vrc7Params(d)
    case Epsm => EpsmHeader(d) + OperatorsParams(4, d, src)
    case _ => []
  }

  /** Everything GetParams adds, in order (with `SixStride`), or the list with every Detune default corrected (`OwnRegister`). */
  function ParamList(expansion: ExpansionType, pitchEnvelopeActive: bool, d: Presets, src: DetuneRead): seq<Param>
    requires HasPatchData(d)
  {
    (if pitchEnvelopeActive then [PitchEnvelopeParam] else []) + ExpansionParams(expansion, d, src)
  }

  /** HasParams: an active pitch envelope or one of the expansions with parameters. */
  predicate HasParams(expansion: ExpansionType, pitchEnvelopeActive: bool)
  {
    pitchEnvelopeActive || expansion == Fds || expansion == N163 || expansion == Vrc6 || expansion == Epsm || expansion == Vrc7
  }

  /** The operator loop of GetParams: appends the parameters of operators 1 to 4 in turn. */
  method AddOperatorParams(paramInfos: seq<Param>, d: Presets) returns (r: seq<Param>)
    requires HasPatchData(d)
    ensures r == paramInfos + OperatorsParams(4, d, SixStride)
  {
    r := paramInfos;
    for i := 0 to 4
      invariant r == paramInfos + OperatorsParams(i, d, SixStride)
    {
      r := r + OperatorParams(i, d, SixStride);
    }
  }

  /**
    GetParams: collects the parameters one group at a time and returns None
    (C#'s null) when there are none.
   */
  method GetParams(instrument: Instrument, d: Presets) returns (r: Option<seq<Param>>)
    requires HasPatchData(d)
    ensures r.None? <==> !HasParams(instrument.expansion, instrument.pitchEnvelopeActive)
    ensures r.Some? ==> r.value == ParamList(instrument.expansion, instrument.pitchEnvelopeActive, d, SixStride)
  {
    var expansion, pitchEnvelopeActive := instrument.expansion, instrument.pitchEnvelopeActive;
    var paramInfos: seq<Param> := [];
    if pitchEnvelopeActive {
      paramInfos := paramInfos + [PitchEnvelopeParam];
    }
    ghost var head := paramInfos;
    match expansion {
      case Fds =>
        paramInfos := paramInfos + FdsParams(d);
      case N163 =>
        paramInfos := paramInfos + N163Params(d);
      case Vrc6 =>
        paramInfos := paramInfos + Vrc6Params;
      case Vrc7 =>
        paramInfos := paramInfos + Vrc7Params(d);
      case Epsm =>
        paramInfos := paramInfos + EpsmHeader(d);
        paramInfos := AddOperatorParams(paramInfos, d);
      case _ =>
    }
    assert paramInfos == head + ExpansionParams(expansion, d, SixStride);
    ParamListEmptyIffNoParams(expansion, pitchEnvelopeActive, d, SixStride);
    r := if |paramInfos| == 0 then None else Some(paramInfos);
  }

  // ---------------------------------------------------------------------------
  // Every listed parameter is consistent with what it edits.

  /**
    A parameter whose default lies in its range; a register parameter is a
    well-formed field whose range is exactly what its mask holds and whose
    default is its field in patch 1.
   */
  predicate WellDescribed(p: Param, d: Presets)
  {
    && p.info.minValue <= p.info.defaultValue <= p.info.maxValue
    && match p.kind
       case Register(chip, f) =>
         && WellFormed(f) && p.info.minValue == 0 && p.info.maxValue == MaxValue(f) as int && p.info.snapValue == 1
         && f.reg < |PatchData(d, chip)| && p.info.defaultValue == FieldValue(f, PatchData(d, chip)[f.reg])
       case Patch(_) => 0 <= p.info.minValue && p.info.maxValue < 256
       case PitchEnvelope => p.info.minValue == 0 && p.info.maxValue == 1
       case _ => true
  }

  predicate AllWellDescribed(ps: seq<Param>, d: Presets)
  {
    forall j :: 0 <= j < |ps| ==> WellDescribed(ps[j], d)
  }

  lemma ConcatWellDescribed(a: seq<Param>, b: seq<Param>, d: Presets)
    requires AllWellDescribed(a, d) && AllWellDescribed(b, d)
    ensures AllWellDescribed(a + b, d)
  {
    forall j | 0 <= j < |a + b|
      ensures WellDescribed((a + b)[j], d)
    {
      if j >= |a| {
        assert (a + b)[j] == b[j - |a|];
      }
    }
  }

  lemma RegisterParamWellDescribed(chip: Chip, e: FieldEntry, d: Presets)
    requires WellFormed(e.field) && e.maxValue == MaxValue(e.field) as int && e.field.reg < |PatchData(d, chip)|
    ensures WellDescribed(RegisterParam(chip, e, PatchData(d, chip)), d)
  {
  }

  lemma OperatorParamsWellDescribed(i: nat, d: Presets)
    requires i < 4 && HasPatchData(d)
    ensures AllWellDescribed(OperatorParams(i, d, OwnRegister), d)
  {
    var ps := OperatorParams(i, d, OwnRegister);
    forall j | 0 <= j < |ps|
      ensures WellDescribed(ps[j], d)
    {
      if j > 0 {
        RegisterParamWellDescribed(EpsmChip, OperatorFieldAt(j - 1, i), d);
      }
    }
  }

  lemma {:induction false} OperatorsParamsWellDescribed(n: nat, d: Presets)
    requires n <= 4 && HasPatchData(d)
    ensures AllWellDescribed(OperatorsParams(n, d, OwnRegister), d)
  {
    if n > 0 {
      OperatorsParamsWellDescribed(n - 1, d);
      OperatorParamsWellDescribed(n - 1, d);
      ConcatWellDescribed(OperatorsParams(n - 1, d, OwnRegister), OperatorParams(n - 1, d, OwnRegister), d);
    }
  }

  lemma EpsmHeaderWellDescribed(d: Presets)
    requires HasPatchData(d)
    ensures AllWellDescribed(EpsmHeader(d), d)
  {
    var ps := EpsmHeader(d);
    forall j | 0 <= j < |ps|
      ensures WellDescribed(ps[j], d)
    {
      if j >= 2 {
        RegisterParamWellDescribed(EpsmChip, EpsmGlobalField(j - 2), d);
      }
    }
  }

  lemma Vrc7ParamsWellDescribed(d: Presets)
    requires HasPatchData(d)
    ensures AllWellDescribed(Vrc7Params(d), d)
  {
    var ps := Vrc7Params(d);
    forall j | 0 <= j < |ps|
      ensures WellDescribed(ps[j], d)
    {
      if j >= 2 {
        RegisterParamWellDescribed(Vrc7Chip, Vrc7Field(j - 2), d);
      }
    }
  }

  /**
    In the corrected list every parameter has its default in range (given
    wave preset indices below the preset count), and every register
    parameter edits a well-formed field with range 0..mask>>shift and
    defaults to its value in patch 1.
   */
  lemma ParamListWellDescribed(expansion: ExpansionType, pitchEnvelopeActive: bool, d: Presets)
    requires HasPatchData(d) && 0 <= d.sine < d.wavePresetCount && 0 <= d.flat < d.wavePresetCount
    ensures AllWellDescribed(ParamList(expansion, pitchEnvelopeActive, d, OwnRegister), d)
  {
    var head := if pitchEnvelopeActive then [PitchEnvelopeParam] else [];
    match expansion {
      case Vrc7 =>
        Vrc7ParamsWellDescribed(d);
      case Epsm =>
        EpsmHeaderWellDescribed(d);
        OperatorsParamsWellDescribed(4, d);
        ConcatWellDescribed(EpsmHeader(d), OperatorsParams(4, d, OwnRegister), d);
      case _ =>
    }
    ConcatWellDescribed(head, ExpansionParams(expansion, d, OwnRegister), d);
  }

  /** The list is empty exactly when HasParams is false, which is when GetParams returns null. */
  lemma ParamListEmptyIffNoParams(expansion: ExpansionType, pitchEnvelopeActive: bool, d: Presets, src: DetuneRead)
    requires HasPatchData(d)
    ensures ParamList(expansion, pitchEnvelopeActive, d, src) == [] <==> !HasParams(expansion, pitchEnvelopeActive)
  {
  }

  /** Wave Size and Wave Position of an N163 instrument always snap to a multiple of 4 inside their bounds. */
  lemma N163WaveSnapsToFour(d: Presets, value: int)
    ensures var size := SnapAndClampValue(N163Params(d)[1].info, value);
      size % 4 == 0 && 4 <= size <= 248
    ensures var pos := SnapAndClampValue(N163Params(d)[2].info, value);
      pos % 4 == 0 && 0 <= pos <= 244
  {
    SnapAndClampGivesMultiple(N163Params(d)[1].info, value);
    SnapAndClampGivesMultiple(N163Params(d)[2].info, value);
  }

  // ---------------------------------------------------------------------------
  // The Detune default.

  /** The Detune default as written: it reads patch byte 2+6i, while the parameter itself edits byte 2+7i. */
  function DetuneDefaultAsWritten(i: nat, epsmPatch1: seq<bv8>): (v: int)
    requires i < 4 && |epsmPatch1| >= 31
    ensures 0 <= v <= 7
  {
    FieldValue(RegField(2 + 6 * i, 0x70, 4), epsmPatch1[2 + 6 * i])
  }

  /** With Detune 1 for operator 2 in patch 1 (byte 9), the default shown is 0, read from byte 8. */
  lemma DetuneDefaultReadsWrongRegister()
    ensures var patch1 := seq(31, k => if k == 9 then 0x10 as bv8 else 0);
      && DetuneDefaultAsWritten(1, patch1) == 0
      && FieldValue(OperatorFieldAt(0, 1).field, patch1[OperatorFieldAt(0, 1).field.reg]) == 1
  {
    var patch1 := seq(31, k => if k == 9 then 0x10 as bv8 else 0);
    assert patch1[8] == 0 && patch1[9] == 0x10;
  }

  /** In the corrected list every operator field, Detune included, defaults to what its own register holds in patch 1. */
  lemma OperatorDefaultsFromOwnRegister(i: nat, k: nat, d: Presets)
    requires i < 4 && k < 12 && HasPatchData(d)
    ensures var p := OperatorParams(i, d, OwnRegister)[k + 1];
      && p.kind == Register(EpsmChip, OperatorFieldAt(k, i).field)
      && p.info.defaultValue == FieldValue(p.kind.field, d.epsmPatch1[2 + 7 * i + OperatorField(k).field.reg - 2])
  {
  }

  /**
    `a` is `c` with at most its default changed; where they differ, `c` is the
    Detune of operator 2, 3 or 4 and `a`'s default still lies in its range.
   */
  predicate DetuneDefaultOnly(a: Param, c: Param)
  {
    && a.kind == c.kind && a.info == c.info.(defaultValue := a.info.defaultValue)
    && (a != c ==> c.info.name == "Detune" && c.info.tabName != "OP1" && c.info.minValue <= a.info.defaultValue <= c.info.maxValue)
  }

  predicate AllDetuneDefaultOnly(a: seq<Param>, c: seq<Param>)
  {
    |a| == |c| && forall j :: 0 <= j < |a| ==> DetuneDefaultOnly(a[j], c[j])
  }

  lemma ConcatDetuneDefaultOnly(a1: seq<Param>, c1: seq<Param>, a2: seq<Param>, c2: seq<Param>)
    requires AllDetuneDefaultOnly(a1, c1) && AllDetuneDefaultOnly(a2, c2)
    ensures AllDetuneDefaultOnly(a1 + a2, c1 + c2)
  {
    forall j | 0 <= j < |a1 + a2|
      ensures DetuneDefaultOnly((a1 + a2)[j], (c1 + c2)[j])
    {
      if j >= |a1| {
        assert (a1 + a2)[j] == a2[j - |a1|] && (c1 + c2)[j] == c2[j - |c1|];
      }
    }
  }

  /** One operator as written: only its Detune default differs from the corrected one, and not at all for operator 1. */
  lemma OperatorParamsAsWritten(i: nat, d: Presets)
    requires i < 4 && HasPatchData(d)
    ensures var a, c := OperatorParams(i, d, SixStride), OperatorParams(i, d, OwnRegister);
      && a == c[1 := c[1].(info := c[1].info.(defaultValue := DetuneDefaultAsWritten(i, d.epsmPatch1)))]
      && (i == 0 ==> a == c)
      && AllDetuneDefaultOnly(a, c)
  {
    var a, c := OperatorParams(i, d, SixStride), OperatorParams(i, d, OwnRegister);
    assert a[1] == c[1].(info := c[1].info.(defaultValue := DetuneDefaultAsWritten(i, d.epsmPatch1)));
    assert forall j :: 0 <= j < 13 && j != 1 ==> a[j] == c[j];
    if i != 0 {
      assert OperatorTab(i)[2] != '1';
    }
  }

  lemma {:induction false} OperatorsParamsAsWritten(n: nat, d: Presets)
    requires n <= 4 && HasPatchData(d)
    ensures AllDetuneDefaultOnly(OperatorsParams(n, d, SixStride), OperatorsParams(n, d, OwnRegister))
  {
    if n > 0 {
      OperatorsParamsAsWritten(n - 1, d);
      OperatorParamsAsWritten(n - 1, d);
      ConcatDetuneDefaultOnly(OperatorsParams(n - 1, d, SixStride), OperatorsParams(n - 1, d, OwnRegister),
                              OperatorParams(n - 1, d, SixStride), OperatorParams(n - 1, d, OwnRegister));
    }
  }

  /**
    The list GetParams returns is the corrected list except for the Detune
    defaults of operators 2 to 4, which still lie in 0..7; outside EPSM the
    two lists are equal.
   */
  lemma ParamListAsWritten(expansion: ExpansionType, pitchEnvelopeActive: bool, d: Presets)
    requires HasPatchData(d)
    ensures AllDetuneDefaultOnly(ParamList(expansion, pitchEnvelopeActive, d, SixStride), ParamList(expansion, pitchEnvelopeActive, d, OwnRegister))
    ensures expansion != Epsm ==> ParamList(expansion, pitchEnvelopeActive, d, SixStride) == ParamList(expansion, pitchEnvelopeActive, d, OwnRegister)
  {
    var head := if pitchEnvelopeActive then [PitchEnvelopeParam] else [];
    var a, c := ExpansionParams(expansion, d, SixStride), ExpansionParams(expansion, d, OwnRegister);
    if expansion == Epsm {
      OperatorsParamsAsWritten(4, d);
      ConcatDetuneDefaultOnly(EpsmHeader(d), EpsmHeader(d), OperatorsParams(4, d, SixStride), OperatorsParams(4, d, OwnRegister));
    }
    assert AllDetuneDefaultOnly(head, head);
    ConcatDetuneDefaultOnly(head, head, a, c);
  }

  /** In the list itself: with Detune 1 for operator 2 in patch 1, entry 24 (that Detune) shows 0, where the corrected list shows 1. */
  lemma GetParamsShowsWrongDetune()
    ensures var d := Presets(0, 0, 0, seq(8, k => 0), seq(31, k => if k == 9 then 0x10 as bv8 else 0));
      && ParamList(Epsm, false, d, SixStride)[24].info.name == "Detune"
      && ParamList(Epsm, false, d, SixStride)[24].info.defaultValue == 0
      && ParamList(Epsm, false, d, OwnRegister)[24].info.defaultValue == 1
  {
    var d := Presets(0, 0, 0, seq(8, k => 0), seq(31, k => if k == 9 then 0x10 as bv8 else 0));
    assert d.epsmPatch1[8] == 0 && d.epsmPatch1[9] == 0x10;
    SecondDetuneAt24(d, SixStride);
    SecondDetuneAt24(d, OwnRegister);
  }

  /** Entry 24 of the EPSM list is field 0 (Detune) of operator 2. */
  lemma SecondDetuneAt24(d: Presets, src: DetuneRead)
    requires HasPatchData(d)
    ensures ParamList(Epsm, false, d, src)[24] == OperatorParams(1, d, src)[1]
  {
    var o2, o3 := OperatorsParams(2, d, src), OperatorsParams(3, d, src);
    assert o2[14] == OperatorParams(1, d, src)[1];
    assert o3[14] == o2[14];
    assert OperatorsParams(4, d, src)[14] == o3[14];
    assert ParamList(Epsm, false, d, src) == [] + EpsmHeader(d) + OperatorsParams(4, d, src);
  }

  // ---------------------------------------------------------------------------
  // Writing one field of a register file.

  /** The registers after a register parameter's SetValue(v). */
  function WriteField(regs: seq<bv8>, f: RegField, v: int): (r: seq<bv8>)
    requires f.reg < |regs|
    ensures |r| == |regs| && forall k :: 0 <= k < |regs| && k != f.reg ==> r[k] == regs[k]
  {
    regs[f.reg := SetFieldValue(f, regs[f.reg], v)]
  }

  /** Reading a field back after writing a value that fits gives that value. */
  lemma WriteThenRead(regs: seq<bv8>, f: RegField, v: int)
    requires f.reg < |regs| && WellFormed(f) && 0 <= v <= MaxValue(f) as int
    ensures FieldValue(f, WriteField(regs, f, v)[f.reg]) == v
  {
    GetAfterSet(f, regs[f.reg], v);
  }

  /** Writing a field leaves every field disjoint from it reading as before. */
  lemma WriteKeepsDisjointField(regs: seq<bv8>, f: RegField, g: RegField, v: int)
    requires f.reg < |regs| && g.reg < |regs| && Disjoint(f, g)
    ensures FieldValue(g, WriteField(regs, f, v)[g.reg]) == FieldValue(g, regs[g.reg])
  {
    if g.reg == f.reg {
      SetKeepsOtherFields(f, g, regs[f.reg], v);
    }
  }

  /** Writing back the value a field reads leaves the registers as they were. */
  lemma WriteCurrentValueKeepsRegisters(regs: seq<bv8>, f: RegField)
    requires f.reg < |regs| && WellFormed(f)
    ensures WriteField(regs, f, FieldValue(f, regs[f.reg])) == regs
  {
    SetCurrentValueKeepsRegister(f, regs[f.reg]);
  }

  // ---------------------------------------------------------------------------
  // The instrument the parameters edit.

  class Instrument {
    var expansion: ExpansionType
    /** Whether the pitch envelope is active (IsEnvelopeActive(EnvelopeType.Pitch)). */
    var pitchEnvelopeActive: bool
    /** The pitch envelope's Relative flag. */
    var pitchRelative: bool
    var vrc7Patch: byte
    var epsmPatch: byte
    const vrc7PatchRegs: array<bv8>
    const epsmPatchRegs: array<bv8>

    predicate Valid()
    {
      vrc7PatchRegs.Length >= 8 && epsmPatchRegs.Length >= 31 && vrc7PatchRegs != epsmPatchRegs
    }

    function Regs(chip: Chip): array<bv8>
    {
      if chip == Vrc7Chip then vrc7PatchRegs else epsmPatchRegs
    }

    /** A parameter whose GetValue this model covers and, for a register, whose register exists. */
    predicate Readable(p: Param)
    {
      && !p.kind.Property?
      && (p.kind.Register? ==> p.kind.field.reg < Regs(p.kind.chip).Length)
    }

    /** The GetValue delegate of a parameter. */
    function GetValue(p: Param): (v: int)
      requires Readable(p)
      reads this, vrc7PatchRegs, epsmPatchRegs
      ensures p.kind.PitchEnvelope? ==> (v == 1 <==> pitchRelative) && (v == 0 <==> !pitchRelative)
      ensures p.kind.Register? ==> 0 <= v <= MaxValue(p.kind.field) as int
      ensures p.kind.Patch? ==> 0 <= v < 256
      ensures p.kind.CustomDraw? ==> v == 0
    {
      if p.kind.PitchEnvelope? then (if pitchRelative then 1 else 0)
      else if p.kind.Patch? then (if p.kind.chip == Vrc7Chip then vrc7Patch else epsmPatch)
      else if p.kind.Register? then FieldValue(p.kind.field, Regs(p.kind.chip)[p.kind.field.reg])
      else 0
    }

    /** The pitch envelope parameter's SetValue: any non-zero value means relative. */
    method SetPitchRelative(v: int)
      modifies this
      ensures pitchRelative == (v != 0)
      ensures expansion == old(expansion) && pitchEnvelopeActive == old(pitchEnvelopeActive)
      ensures vrc7Patch == old(vrc7Patch) && epsmPatch == old(epsmPatch)
    {
      pitchRelative := v != 0;
    }

    /** The Patch parameter's SetValue: the `(byte)` cast of the value. */
    method SetPatch(chip: Chip, v: int)
      modifies this
      ensures chip == Vrc7Chip ==> vrc7Patch == ToByte(v) && epsmPatch == old(epsmPatch)
      ensures chip == EpsmChip ==> epsmPatch == ToByte(v) && vrc7Patch == old(vrc7Patch)
      ensures expansion == old(expansion) && pitchEnvelopeActive == old(pitchEnvelopeActive)
      ensures pitchRelative == old(pitchRelative)
    {
      if chip == Vrc7Chip {
        vrc7Patch := ToByte(v);
      } else {
        epsmPatch := ToByte(v);
      }
    }

    /**
      A register parameter's SetValue: rewrite the field in its one register
      and switch the instrument to the custom patch (0).
     */
    method SetRegister(chip: Chip, f: RegField, v: int)
      requires f.reg < Regs(chip).Length
      modifies this, Regs(chip)
      ensures Regs(chip)[..] == WriteField(old(Regs(chip)[..]), f, v)
      ensures WellFormed(f) && 0 <= v <= MaxValue(f) as int ==> FieldValue(f, Regs(chip)[f.reg]) == v
      ensures forall g: RegField :: g.reg < Regs(chip).Length && Disjoint(f, g) ==>
        FieldValue(g, Regs(chip)[g.reg]) == FieldValue(g, old(Regs(chip)[g.reg]))
      ensures chip == Vrc7Chip ==> vrc7Patch == 0 && epsmPatch == old(epsmPatch)
      ensures chip == EpsmChip ==> epsmPatch == 0 && vrc7Patch == old(vrc7Patch)
      ensures expansion == old(expansion) && pitchEnvelopeActive == old(pitchEnvelopeActive)
      ensures pitchRelative == old(pitchRelative)
    {
      var regs := Regs(chip);
      ghost var before := regs[..];
      regs[f.reg] := SetFieldValue(f, regs[f.reg], v);
      if chip == Vrc7Chip {
        vrc7Patch := 0;
      } else {
        epsmPatch := 0;
      }
      assert regs[..] == WriteField(before, f, v);
      if WellFormed(f) && 0 <= v <= MaxValue(f) as int {
        WriteThenRead(before, f, v);
      }
      forall g: RegField | g.reg < regs.Length && Disjoint(f, g)
        ensures FieldValue(g, regs[g.reg]) == FieldValue(g, before[g.reg])
      {
        WriteKeepsDisjointField(before, f, g, v);
      }
    }

    /** The largest value SetValue stores unchanged. */
    function Range(p: Param): int
    {
      match p.kind
      case PitchEnvelope => 1
      case Patch(_) => 255
      case Register(_, f) => MaxValue(f) as int
      case _ => 0
    }

    /** Whether setting `p` provably leaves `q` alone: both are register parameters, on different chips or on fields that share no bit. */
    predicate Separate(p: Param, q: Param)
    {
      p.kind.Register? && q.kind.Register? && (p.kind.chip != q.kind.chip || Disjoint(p.kind.field, q.kind.field))
    }

    /**
      The SetValue delegate of a parameter. Reading back gives the value set
      whenever it fits the parameter, and no register parameter sharing no
      bit with `p` changes. A Patch write says nothing of the registers: the
      Vrc7Patch and EpsmPatch setters of Instrument.cs, which load the
      preset's registers, are not part of this model.
     */
    method SetValue(p: Param, v: int)
      requires Valid() && Readable(p) && !p.kind.CustomDraw?
      requires p.kind.Register? ==> WellFormed(p.kind.field)
      modifies this, vrc7PatchRegs, epsmPatchRegs
      ensures 0 <= v <= Range(p) ==> GetValue(p) == v
      ensures p.kind.PitchEnvelope? ==> pitchRelative == (v != 0)
      ensures p.kind.Register? && p.kind.chip == Vrc7Chip ==> vrc7Patch == 0
      ensures p.kind.Register? && p.kind.chip == EpsmChip ==> epsmPatch == 0
      ensures forall q :: Readable(q) && Separate(p, q) ==> GetValue(q) == old(GetValue(q))
      ensures p.kind.PitchEnvelope? ==> vrc7PatchRegs[..] == old(vrc7PatchRegs[..]) && epsmPatchRegs[..] == old(epsmPatchRegs[..])
      ensures expansion == old(expansion) && pitchEnvelopeActive == old(pitchEnvelopeActive)
    {
      match p.kind {
        case PitchEnvelope =>
          SetPitchRelative(v);
        case Patch(chip) =>
          SetPatch(chip, v);
        case Register(chip, f) =>
          SetRegister(chip, f, v);
      }
    }
  }
}
