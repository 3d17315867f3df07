/**
 * The decisions of the coverage collector's assembly processor that do not
 * touch IL: whether an assembly is processed at all, which tracer build it
 * must reference, how a source range is packed into one 64-bit constant, and
 * the widening of short branch opcodes before instructions are inserted.
 */
module Coverage {
  import opened Wrappers
  import Text

  // ---------------------------------------------------------------------------
  // Line-range packing

  const Field := 0x1_0000

  /** `(ushort)x`: the low 16 bits, for negative values too. */
  function Trunc16(x: int): (r: nat)
    ensures r < Field
    ensures (r - x) % Field == 0
  {
    x % Field
  }

  /** `StartLine << 48 | StartColumn << 32 | EndLine << 16 | EndColumn`, each field cut to 16 bits. */
  function PackRange(startLine: int, startColumn: int, endLine: int, endColumn: int): (r: nat)
    ensures r < Field * Field * Field * Field
  {
    ((Trunc16(startLine) * Field + Trunc16(startColumn)) * Field + Trunc16(endLine)) * Field + Trunc16(endColumn)
  }

  /** The four fields of a packed range, most significant first. */
  function UnpackRange(packed: nat): (int, int, int, int) {
    (packed / Field / Field / Field % Field, packed / Field / Field % Field, packed / Field % Field, packed % Field)
  }

  lemma DivModField(hi: nat, lo: nat)
    requires lo < Field
    ensures (hi * Field + lo) / Field == hi && (hi * Field + lo) % Field == lo
  {
  }

  /** Shifting and masking recovers each field as truncated. */
  lemma PackRangeRoundTrip(startLine: int, startColumn: int, endLine: int, endColumn: int)
    ensures UnpackRange(PackRange(startLine, startColumn, endLine, endColumn))
         == (Trunc16(startLine), Trunc16(startColumn), Trunc16(endLine), Trunc16(endColumn))
  {
    var a, b, c, d := Trunc16(startLine), Trunc16(startColumn), Trunc16(endLine), Trunc16(endColumn);
    DivModField((a * Field + b) * Field + c, d);
    DivModField(a * Field + b, c);
    DivModField(a, b);
  }

  /** Ranges whose fields fit in 16 bits pack without loss. */
  lemma PackRangeInjective(s1: int, c1: int, e1: int, d1: int, s2: int, c2: int, e2: int, d2: int)
    requires 0 <= s1 < Field && 0 <= c1 < Field && 0 <= e1 < Field && 0 <= d1 < Field
    requires 0 <= s2 < Field && 0 <= c2 < Field && 0 <= e2 < Field && 0 <= d2 < Field
    requires PackRange(s1, c1, e1, d1) == PackRange(s2, c2, e2, d2)
    ensures s1 == s2 && c1 == c2 && e1 == e2 && d1 == d2
  {
    PackRangeRoundTrip(s1, c1, e1, d1);
    PackRangeRoundTrip(s2, c2, e2, d2);
  }

  // ---------------------------------------------------------------------------
  // Short branch opcodes

  datatype OpCode =
    | BrS | BrfalseS | BrtrueS | LeaveS | BltS | BltUnS | BleS | BleUnS | BgtS | BgtUnS | BgeS | BgeUnS | BeqS | BneUnS
    | Br | Brfalse | Brtrue | Leave | Blt | BltUn | Ble | BleUn | Bgt | BgtUn | Bge | BgeUn | Beq | BneUn
    | Nop | Ldloca | OtherOpCode(code: int)

  predicate IsShortBranch(op: OpCode) {
    || op.BrS? || op.BrfalseS? || op.BrtrueS? || op.LeaveS? || op.BltS? || op.BltUnS? || op.BleS?
    || op.BleUnS? || op.BgtS? || op.BgtUnS? || op.BgeS? || op.BgeUnS? || op.BeqS? || op.BneUnS?
  }

  /** The long form of a short branch, by name: `X_S` becomes `X`. */
  function LongForm(op: OpCode): (r: OpCode)
    ensures !IsShortBranch(r)
    ensures !IsShortBranch(op) ==> r == op
  {
    match op
    case BrS => Br
    case BrfalseS => Brfalse
    case BrtrueS => Brtrue
    case LeaveS => Leave
    case BltS => Blt
    case BltUnS => BltUn
    case BleS => Ble
    case BleUnS => BleUn
    case BgtS => Bgt
    case BgtUnS => BgtUn
    case BgeS => Bge
    case BgeUnS => BgeUn
    case BeqS => Beq
    case BneUnS => BneUn
    case _ => op
  }

  /** The fourteen short branches, in the order the source tests them. */
  function ShortAt(i: nat): (op: OpCode)
    requires i < 14
    ensures IsShortBranch(op)
  {
    match i
    case 0 => BrS
    case 1 => BrfalseS
    case 2 => BrtrueS
    case 3 => LeaveS
    case 4 => BltS
    case 5 => BltUnS
    case 6 => BleS
    case 7 => BleUnS
    case 8 => BgtS
    case 9 => BgtUnS
    case 10 => BgeS
    case 11 => BgeUnS
    case 12 => BeqS
    case _ => BneUnS
  }

  /** Every short branch is among the fourteen, at this position. */
  function ShortIndex(op: OpCode): (i: nat)
    requires IsShortBranch(op)
    ensures i < 14 && ShortAt(i) == op
  {
    match op
    case BrS => 0
    case BrfalseS => 1
    case BrtrueS => 2
    case LeaveS => 3
    case BltS => 4
    case BltUnS => 5
    case BleS => 6
    case BleUnS => 7
    case BgtS => 8
    case BgtUnS => 9
    case BgeS => 10
    case BgeUnS => 11
    case BeqS => 12
    case BneUnS => 13
  }

  /**
   * `RemoveShortOpCodes`: fourteen tests in a row, each replacing one short
   * branch by its long form. Because no long form is itself short, at most
   * one test fires.
   */
  method RemoveShortOpCodes(op: OpCode) returns (r: OpCode)
    ensures r == LongForm(op)
    ensures !IsShortBranch(r)
    ensures !IsShortBranch(op) ==> r == op
  {
    r := op;
    var i := 0;
    while i < 14
      invariant 0 <= i <= 14
      invariant r == op || r == LongForm(op)
      invariant forall j :: 0 <= j < i && ShortAt(j) == op ==> r == LongForm(op)
    {
      if r == ShortAt(i) {
        r := LongForm(ShortAt(i));
      }
      i := i + 1;
    }
    if IsShortBranch(op) {
      assert ShortAt(ShortIndex(op)) == op;
    }
  }

  /** Widening twice is widening once. */
  lemma RemoveShortOpCodesIdempotent(op: OpCode)
    ensures LongForm(LongForm(op)) == LongForm(op)
  {
  }

  // ---------------------------------------------------------------------------
  // Tracer target

  datatype TracerTarget = Net461 | Netstandard20 | Netcoreapp31

  const TargetFrameworkAttribute := "System.Runtime.Versioning.TargetFrameworkAttribute"

  /** A custom attribute: its type's full name and its first constructor argument. */
  datatype Attribute = Attribute(typeFullName: string, firstArgument: string)

  /** The core library reference: its name and, when it is an assembly reference, its major version. */
  datatype CoreLibrary = CoreLibrary(name: string, assemblyMajor: Option<int>)

  const NetstandardTargets := {".NETCoreApp,Version=v2.0", ".NETCoreApp,Version=v2.1", ".NETCoreApp,Version=v2.2", ".NETCoreApp,Version=v3.0"}
  const Netcoreapp31Targets := {".NETCoreApp,Version=v3.1", ".NETCoreApp,Version=v5.0", ".NETCoreApp,Version=v6.0", ".NETCoreApp,Version=v7.0"}

  /**
   * The target a single target-framework value names, if it is one the
   * processor knows: any .NET Framework value, or one of eight listed
   * .NET Core values.
   */
  function TargetOfFramework(value: string): Option<TracerTarget> {
    if Text.Contains(value, ".NETFramework,Version=") then Some(Net461)
    else if value in NetstandardTargets then Some(Netstandard20)
    else if value in Netcoreapp31Targets then Some(Netcoreapp31)
    else None
  }

  /** A .NET Framework target names the .NET Framework tracer whatever its version. */
  lemma NetFrameworkValue(version: string)
    ensures TargetOfFramework(".NETFramework,Version=" + version) == Some(Net461)
  {
    var value := ".NETFramework,Version=" + version;
    assert Text.OccursAt(value, ".NETFramework,Version=", 0);
  }

  /** The core-library fallback. */
  function TargetOfCoreLibrary(core: CoreLibrary): TracerTarget {
    if (core.name == "netstandard" && core.assemblyMajor == Some(2)) || core.name == "System.Private.CoreLib" || core.name == "System.Runtime"
    then Netstandard20 else Net461
  }

  /** The index of the first target-framework attribute with a known value. */
  function FirstKnownTarget(attributes: seq<Attribute>): (r: Option<nat>)
    ensures r.Some? ==> r.value < |attributes|
                        && attributes[r.value].typeFullName == TargetFrameworkAttribute
                        && TargetOfFramework(attributes[r.value].firstArgument).Some?
    ensures forall i :: 0 <= i < |attributes| && (r.None? || i < r.value) && attributes[i].typeFullName == TargetFrameworkAttribute
              ==> TargetOfFramework(attributes[i].firstArgument).None?
  {
    if |attributes| == 0 then None
    else if attributes[0].typeFullName == TargetFrameworkAttribute && TargetOfFramework(attributes[0].firstArgument).Some? then Some(0)
    else match FirstKnownTarget(attributes[1..])
      case None => None
      case Some(i) => Some(i + 1)
  }

  /**
   * `GetTracerTarget`: the first target-framework attribute whose value is
   * recognised decides; unrecognised values are passed over; without one,
   * the core library decides.
   */
  method GetTracerTarget(attributes: seq<Attribute>, core: CoreLibrary) returns (t: TracerTarget)
    ensures FirstKnownTarget(attributes).Some? ==> Some(t) == TargetOfFramework(attributes[FirstKnownTarget(attributes).value].firstArgument)
    ensures FirstKnownTarget(attributes).None? ==> t == TargetOfCoreLibrary(core)
  {
    var i := 0;
    while i < |attributes|
      invariant 0 <= i <= |attributes|
      invariant forall j :: 0 <= j < i && attributes[j].typeFullName == TargetFrameworkAttribute ==> TargetOfFramework(attributes[j].firstArgument).None?
    {
      if attributes[i].typeFullName == TargetFrameworkAttribute {
        var target := TargetOfFramework(attributes[i].firstArgument);
        if target.Some? {
          FirstKnownIs(attributes, i);
          return target.value;
        }
      }
      i := i + 1;
    }
    NoneKnown(attributes);
    return TargetOfCoreLibrary(core);
  }

  lemma {:induction false} FirstKnownIs(attributes: seq<Attribute>, i: nat)
    requires i < |attributes| && attributes[i].typeFullName == TargetFrameworkAttribute && TargetOfFramework(attributes[i].firstArgument).Some?
    requires forall j :: 0 <= j < i && attributes[j].typeFullName == TargetFrameworkAttribute ==> TargetOfFramework(attributes[j].firstArgument).None?
    ensures FirstKnownTarget(attributes) == Some(i)
  {
    if i > 0 {
      FirstKnownIs(attributes[1..], i - 1);
    }
  }

  lemma {:induction false} NoneKnown(attributes: seq<Attribute>)
    requires forall j :: 0 <= j < |attributes| && attributes[j].typeFullName == TargetFrameworkAttribute ==> TargetOfFramework(attributes[j].firstArgument).None?
    ensures FirstKnownTarget(attributes).None?
  {
    if |attributes| > 0 {
      NoneKnown(attributes[1..]);
    }
  }

  // ---------------------------------------------------------------------------
  // Whether an assembly is processed

  datatype Decision = IgnoredByAttribute | AlreadyCovered | SignedNet461 | Instrument

  /**
   * The checks at the top of `Process`: an `AvoidCoverage` attribute, then a
   * `CoveredAssembly` attribute, then a strong-named assembly that would need
   * the .NET Framework tracer, which cannot be referenced from it.
   */
  function ProcessDecision(attributeTypeNames: seq<string>, hasPublicKey: bool, target: TracerTarget): (d: Decision)
    ensures d == Instrument <==> "AvoidCoverageAttribute" !in attributeTypeNames && "CoveredAssemblyAttribute" !in attributeTypeNames
                                 && !(hasPublicKey && target == Net461)
    ensures d == IgnoredByAttribute <==> "AvoidCoverageAttribute" in attributeTypeNames
    ensures d == AlreadyCovered ==> "CoveredAssemblyAttribute" in attributeTypeNames
    ensures d == SignedNet461 ==> hasPublicKey && target == Net461
  {
    if "AvoidCoverageAttribute" in attributeTypeNames then IgnoredByAttribute
    else if "CoveredAssemblyAttribute" in attributeTypeNames then AlreadyCovered
    else if hasPublicKey && target == Net461 then SignedNet461
    else Instrument
  }

  /** An unsigned assembly without the two attributes is always instrumented, whatever its target. */
  lemma UnsignedPlainAssemblyInstrumented(attributeTypeNames: seq<string>, target: TracerTarget)
    requires "AvoidCoverageAttribute" !in attributeTypeNames && "CoveredAssemblyAttribute" !in attributeTypeNames
    ensures ProcessDecision(attributeTypeNames, false, target) == Instrument
  {
  }
}
