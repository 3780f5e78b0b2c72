/** The architecture resolver: the packed (family, model) CPU identifier and
    the static table mapping it to a name and the hardware event strings the
    library uses for read/write sampling and read/write counting. */
module Archi {

  /** An architecture id, an `unsigned int` in the library. */
  type ArchId = x: nat | x < 0x1_0000_0000

  /** The sentinel event string meaning "this capability is not available". */
  const NOT_SUPPORTED: string := "NOT_SUPPORTED"

  const READ_LOAD_LATENCY: string := "MEM_TRANS_RETIRED:LOAD_LATENCY:ldlat=3"
  const READ_ABOVE_THRESHOLD: string := "MEM_TRANS_RETIRED:LATENCY_ABOVE_THRESHOLD:ldlat=3"
  const READ_INST_ABOVE_THRESHOLD: string := "MEM_INST_RETIRED:LATENCY_ABOVE_THRESHOLD:ldlat=3"
  const WRITE_INST_ALL_STORES: string := "MEM_INST_RETIRED:ALL_STORES"
  const WRITE_UOPS_ALL_STORES: string := "MEM_UOPS_RETIRED:ALL_STORES"
  const WRITE_PRECISE_STORE: string := "MEM_TRANS_RETIRED:PRECISE_STORE"

  /** An architecture descriptor (`struct archi`). */
  datatype Arch = Arch(
    id: ArchId,
    name: string,
    samplingReadEvent: string,
    samplingWriteEvent: string,
    countingReadEvent: string,
    countingWriteEvent: string)

  /** `CPU_MODEL(family, model)`, `(family) | (model) << 8`, applied by the
      library to `unsigned char` values only: the family fills the low byte
      and the model the next one, so the `|` adds bits that do not overlap. */
  function CpuModel(family: nat, model: nat): (id: ArchId)
    requires family < 256 && model < 256
    ensures id % 256 == family && id / 256 == model
  {
    family + 256 * model
  }

  /** `get_family`: `(archi_id >> 0) & 0xff`. */
  function GetFamily(id: ArchId): (f: nat)
    ensures f < 256
  {
    id % 256
  }

  /** `get_model`: `(archi_id >> 8) & 0xff`. */
  function GetModel(id: ArchId): (m: nat)
    ensures m < 256
  {
    (id / 256) % 256
  }

  /** On byte-sized operands the macro's bitwise form is the sum used above. */
  lemma CpuModelIsBitwise(family: bv32, model: bv32)
    requires family < 256 && model < 256
    ensures family | (model << 8) == family + model * 256
  {
  }

  /** Packing then unpacking gives back the family and the model. */
  lemma FamilyModelRoundTrip(family: nat, model: nat)
    requires family < 256 && model < 256
    ensures GetFamily(CpuModel(family, model)) == family
    ensures GetModel(CpuModel(family, model)) == model
  {
  }

  /** Distinct (family, model) pairs get distinct ids. */
  lemma CpuModelInjective(f1: nat, m1: nat, f2: nat, m2: nat)
    requires f1 < 256 && m1 < 256 && f2 < 256 && m2 < 256
    requires CpuModel(f1, m1) == CpuModel(f2, m2)
    ensures f1 == f2 && m1 == m2
  {
    FamilyModelRoundTrip(f1, m1);
    FamilyModelRoundTrip(f2, m2);
  }

  /** The micro-architectures the table names; `Unknown` is the default. */
  datatype MicroArch =
    | AlderLake
    | RocketLake
    | TigerLake
    | IceLake
    | CannonLake
    | KabyLake
    | Skylake
    | Broadwell
    | Haswell
    | IvyBridge
    | SandyBridge
    | Nehalem
    | Westmere
    | KnightsMill
    | KnightsLanding
    | KnightsFerry
    | KnightsCorner
    | Netburst
    | Prescott
    | Northwood
    | Willamette
    | Penryn
    | Core
    | ModifiedPentiumM
    | PentiumM
    | Tremont
    | GoldmontPlus
    | Goldmont
    | Airmont
    | Silvermont
    | Saltwell
    | Bonnell
    | Unknown

  /** The case labels of `get_archi`'s `switch`: which entry an id selects.
      Every label is `CPU_MODEL(f, m)` for bytes f and m, so an id matches a
      label exactly when it is below 2^16 and its low and high bytes are f and
      m (see `MatchesLabel`); the labels are listed family by family. */
  function Classify(id: ArchId): MicroArch
  {
    if id >= 0x1_0000 then Unknown
    else
      var f, m := GetFamily(id), GetModel(id);
      if f == 6 then ClassifyFamily6(m)
      else if f == 11 then (if m == 0 then KnightsFerry else if m == 1 then KnightsCorner else Unknown)
      else if f == 15 then ClassifyFamily15(m)
      else Unknown
  }

  /** The labels `CPU_MODEL(6, m)`. */
  function ClassifyFamily6(m: nat): MicroArch
  {
    match m
    case 151 | 154 => AlderLake
    case 167 => RocketLake
    case 141 | 140 => TigerLake
    case 125 | 126 => IceLake
    case 102 => CannonLake
    case 158 | 142 => KabyLake
    case 94 | 78 | 85 => Skylake
    case 79 | 86 | 71 | 61 => Broadwell
    case 60 | 63 | 69 | 70 => Haswell
    case 58 | 62 => IvyBridge
    case 42 | 45 => SandyBridge
    case 46 | 30 | 26 | 31 => Nehalem
    case 44 | 47 | 37 => Westmere
    case 133 => KnightsMill
    case 87 => KnightsLanding
    case 29 | 23 => Penryn
    case 15 | 22 => Core
    case 14 => ModifiedPentiumM
    case 21 | 13 | 9 => PentiumM
    case 134 => Tremont
    case 122 => GoldmontPlus
    case 95 | 92 => Goldmont
    case 76 => Airmont
    case 55 | 74 | 77 | 93 => Silvermont
    case 39 | 53 | 54 => Saltwell
    case 28 | 38 => Bonnell
    case _ => Unknown
  }

  /** The labels `CPU_MODEL(15, m)`. */
  function ClassifyFamily15(m: nat): MicroArch
  {
    match m
    case 6 => Netburst
    case 4 | 3 => Prescott
    case 2 => Northwood
    case 1 => Willamette
    case _ => Unknown
  }

  /** An id selects the label `CPU_MODEL(f, m)` exactly when it is below 2^16
      and its family and model bytes are f and m. */
  lemma MatchesLabel(id: ArchId, f: nat, m: nat)
    requires f < 256 && m < 256
    ensures id == CpuModel(f, m) <==> id < 0x1_0000 && GetFamily(id) == f && GetModel(id) == m
  {
  }

  /** The name `get_archi` writes for each entry. */
  function ArchName(u: MicroArch): string
  {
    match u
    case AlderLake => "Alder Lake micro arch"
    case RocketLake => "Rocket Lake micro arch"
    case TigerLake => "Tiger Lake micro arch"
    case IceLake => "Ice Lake micro arch"
    case CannonLake => "Cannon Lake micro arch"
    case KabyLake => "Kaby Lake micro arch"
    case Skylake => "Skylake micro arch"
    case Broadwell => "Broadwell micro arch"
    case Haswell => "Haswell micro arch"
    case IvyBridge => "Ivy Bridge micro arch"
    case SandyBridge => "Sandy Bridge micro arch"
    case Nehalem => "Nehalem micro arch"
    case Westmere => "Westmere micro arch"
    case KnightsMill => "Knights Mill micro arch"
    case KnightsLanding => "Knights Landing micro arch"
    case KnightsFerry => "Knights Ferry micro arch"
    case KnightsCorner => "Knights Corner micro arch"
    case Netburst => "Netburst micro arch"
    case Prescott => "Prescott micro arch"
    case Northwood => "Northwood micro arch"
    case Willamette => "Willamette micro arch"
    case Penryn => "Penryn micro arch"
    case Core => "Core micro arch"
    case ModifiedPentiumM => "Modified Pentium M micro arch"
    case PentiumM => "Pentium M micro arch"
    case Tremont => "Tremont micro arch"
    case GoldmontPlus => "Goldmont Plus micro arch"
    case Goldmont => "Goldmont micro arch"
    case Airmont => "Airmont micro arch"
    case Silvermont => "Silvermont micro arch"
    case Saltwell => "Saltwell micro arch"
    case Bonnell => "Bonnell micro arch"
    case Unknown => "Unknown architecture"
  }

  /** The read sampling event `get_archi` writes for each entry. */
  function ReadEvent(u: MicroArch): string
  {
    match u
    case AlderLake | RocketLake | TigerLake | IceLake | CannonLake | KabyLake | Skylake | Broadwell | Haswell => READ_LOAD_LATENCY
    case IvyBridge | SandyBridge => READ_ABOVE_THRESHOLD
    case Nehalem | Westmere => READ_INST_ABOVE_THRESHOLD
    case _ => NOT_SUPPORTED
  }

  /** The write sampling event `get_archi` writes for each entry. */
  function WriteEvent(u: MicroArch): string
  {
    match u
    case AlderLake | RocketLake | TigerLake | IceLake | CannonLake | KabyLake => WRITE_INST_ALL_STORES
    case Skylake | Broadwell | Haswell => WRITE_UOPS_ALL_STORES
    case IvyBridge | SandyBridge => WRITE_PRECISE_STORE
    case _ => NOT_SUPPORTED
  }

  /** `get_archi`: start from "Unknown architecture" with every event
      unsupported, then let the matching case overwrite the name and the two
      sampling events. No case writes a counting event. */
  function GetArchi(id: ArchId): (a: Arch)
    ensures a.id == id
  {
    var u := Classify(id);
    Arch(id, ArchName(u), ReadEvent(u), WriteEvent(u), NOT_SUPPORTED, NOT_SUPPORTED)
  }

  /** `numap_sampling_read_supported`. */
  predicate SamplingReadSupported(a: Arch)
  {
    a.samplingReadEvent != NOT_SUPPORTED
  }

  /** `numap_sampling_write_supported`. */
  predicate SamplingWriteSupported(a: Arch)
  {
    a.samplingWriteEvent != NOT_SUPPORTED
  }

  // ---------------------------------------------------------------------
  // An independent reference: the ids of the table, grouped by capability.

  /** An id of the form `CPU_MODEL(f, m)` with f and m bytes, read back as
      its family and model. */
  predicate IsLabel(id: ArchId, f: nat, m: nat)
  {
    id < 0x1_0000 && GetFamily(id) == f && GetModel(id) == m
  }

  /** Family 6 models whose entry supplies both a read and a write sampling
      event. */
  predicate ReadWriteModel(m: nat)
  {
      || m == 151
      || m == 154
      || m == 167
      || m == 141
      || m == 140
      || m == 125
      || m == 126
      || m == 102
      || m == 158
      || m == 142
      || m == 94
      || m == 78
      || m == 85
      || m == 79
      || m == 86
      || m == 71
      || m == 61
      || m == 60
      || m == 63
      || m == 69
      || m == 70
      || m == 58
      || m == 62
      || m == 42
      || m == 45
  }

  /** Family 6 models with read sampling only (Nehalem and Westmere). */
  predicate ReadOnlyModel(m: nat)
  {
      || m == 46
      || m == 30
      || m == 26
      || m == 31
      || m == 44
      || m == 47
      || m == 37
  }

  /** Family 6 models that are named but support nothing (Xeon Phi,
      Core / Pentium M and Atom). */
  predicate NameOnlyModel6(m: nat)
  {
      || m == 133
      || m == 87
      || m == 29
      || m == 23
      || m == 15
      || m == 22
      || m == 14
      || m == 21
      || m == 13
      || m == 9
      || m == 134
      || m == 122
      || m == 95
      || m == 92
      || m == 76
      || m == 55
      || m == 74
      || m == 77
      || m == 93
      || m == 39
      || m == 53
      || m == 54
      || m == 28
      || m == 38
  }

  /** Ids whose entry supplies both a read and a write sampling event. */
  predicate IsReadWriteId(id: ArchId)
  {
    id < 0x1_0000 && GetFamily(id) == 6 && ReadWriteModel(GetModel(id))
  }

  /** Ids with read sampling only. */
  predicate IsReadOnlyId(id: ArchId)
  {
    id < 0x1_0000 && GetFamily(id) == 6 && ReadOnlyModel(GetModel(id))
  }

  /** Ids named by the table that support no sampling: the family 6 ones
      above, Knights Ferry and Knights Corner (family 11) and the Netburst
      line (family 15). */
  predicate IsNameOnlyId(id: ArchId)
  {
    && id < 0x1_0000
    && (|| (GetFamily(id) == 6 && NameOnlyModel6(GetModel(id)))
        || (GetFamily(id) == 11 && GetModel(id) <= 1)
        || (GetFamily(id) == 15 && 1 <= GetModel(id) <= 6 && GetModel(id) != 5))
  }

  /** Every id the table knows. */
  predicate IsKnownId(id: ArchId)
  {
    IsReadWriteId(id) || IsReadOnlyId(id) || IsNameOnlyId(id)
  }

  /** The entries that supply both sampling events. */
  predicate ReadWriteArch(u: MicroArch)
  {
    match u
    case AlderLake | RocketLake | TigerLake | IceLake | CannonLake | KabyLake
       | Skylake | Broadwell | Haswell | IvyBridge | SandyBridge => true
    case _ => false
  }

  /** The entries that supply a read sampling event only. */
  predicate ReadOnlyArch(u: MicroArch)
  {
    u == Nehalem || u == Westmere
  }

  /** Which entries carry a supported event. */
  lemma EventsByEntry(u: MicroArch)
    ensures ReadEvent(u) != NOT_SUPPORTED <==> ReadWriteArch(u) || ReadOnlyArch(u)
    ensures WriteEvent(u) != NOT_SUPPORTED <==> ReadWriteArch(u)
  {
  }

  /** The capability groups of ids are exactly the ids the matching entries
      select. */
  lemma ClassifyGroups(id: ArchId)
    ensures ReadWriteArch(Classify(id)) <==> IsReadWriteId(id)
    ensures ReadOnlyArch(Classify(id)) <==> IsReadOnlyId(id)
    ensures Classify(id) == Unknown <==> !IsKnownId(id)
  {
  }

  /** An id outside the table gets the default descriptor. */
  lemma UnknownArchitecture(id: ArchId)
    requires !IsKnownId(id)
    ensures GetArchi(id) == Arch(id, "Unknown architecture", NOT_SUPPORTED, NOT_SUPPORTED, NOT_SUPPORTED, NOT_SUPPORTED)
  {
    ClassifyGroups(id);
  }

  /** No entry sets a counting event: both are unsupported for every id. */
  lemma CountingNeverSupported(id: ArchId)
    ensures GetArchi(id).countingReadEvent == NOT_SUPPORTED
    ensures GetArchi(id).countingWriteEvent == NOT_SUPPORTED
  {
  }

  /** Read sampling is supported exactly on the read/write and read-only ids. */
  lemma ReadSupportedIff(id: ArchId)
    ensures SamplingReadSupported(GetArchi(id)) <==> IsReadWriteId(id) || IsReadOnlyId(id)
  {
    ClassifyGroups(id);
    EventsByEntry(Classify(id));
  }

  /** Write sampling is supported exactly on the read/write ids. */
  lemma WriteSupportedIff(id: ArchId)
    ensures SamplingWriteSupported(GetArchi(id)) <==> IsReadWriteId(id)
  {
    ClassifyGroups(id);
    EventsByEntry(Classify(id));
  }

  /** Only the default entry carries the "Unknown architecture" name. */
  lemma UnknownNameOnlyForUnknown(u: MicroArch)
    ensures ArchName(u) == "Unknown architecture" <==> u == Unknown
  {
  }

  /** A known id is never reported as the unknown architecture. */
  lemma KnownIdsAreNamed(id: ArchId)
    requires IsKnownId(id)
    ensures GetArchi(id).name != "Unknown architecture"
  {
    ClassifyGroups(id);
    UnknownNameOnlyForUnknown(Classify(id));
  }

  /** The Nehalem/Westmere ids have a read event and no write event. */
  lemma ReadOnlyArchitectures(id: ArchId)
    requires IsReadOnlyId(id)
    ensures SamplingReadSupported(GetArchi(id)) && !SamplingWriteSupported(GetArchi(id))
  {
    ClassifyGroups(id);
    EventsByEntry(Classify(id));
  }

  /** The Xeon Phi, Netburst, Core/Pentium M and Atom ids are named but
      support no sampling, so a table entry may have no supported event. */
  lemma NameOnlyArchitectures(id: ArchId)
    requires IsNameOnlyId(id)
    ensures !SamplingReadSupported(GetArchi(id)) && !SamplingWriteSupported(GetArchi(id))
    ensures GetArchi(id).name != "Unknown architecture"
  {
    assert !IsReadWriteId(id) && !IsReadOnlyId(id);
    ClassifyGroups(id);
    EventsByEntry(Classify(id));
    KnownIdsAreNamed(id);
  }
}
