/**
 * The output-name classifier of the llvm_min_tblgen module type: which mode of
 * llvm-min-tblgen produces a requested output file.
 */
module Classifier {
  import opened Wrappers
  import Strings
  import Paths

  /** Names ending in this are RISC-V target-parser definition tables. */
  const RiscvTargetParserDefSuffix := "RISCVTargetParserDef.inc"

  /**
   * One `case` of the tagless switch in min_tblgen_outToGenerator: either a list
   * of base names compared for equality, or a suffix test; and the flags it returns.
   */
  datatype Case =
    | NameIn(names: seq<string>, flags: string)
    | SuffixIs(suffix: string, flags: string)

  /** Whether a case's condition holds for a base name. */
  predicate Matches(c: Case, base: string)
  {
    match c
    case NameIn(names, _) => base in names
    case SuffixIs(suffix, _) => Strings.HasSuffix(base, suffix)
  }

  /** The first three cases: attributes, the target-independent intrinsic tables. */
  const LeadingCases: seq<Case> := [
    NameIn(["Attributes.inc", "AttributesCompatFunc.inc"], "-gen-attrs"),
    NameIn(["IntrinsicEnums.inc"], "-gen-intrinsic-enums"),
    NameIn(["IntrinsicImpl.inc"], "-gen-intrinsic-impl")
  ]

  /** One case per target's intrinsics header, targets AArch64 to Mips. */
  const IntrinsicHeaderCasesAToM: seq<Case> := [
    NameIn(["IntrinsicsAArch64.h"], "-gen-intrinsic-enums -intrinsic-prefix=aarch64"),
    NameIn(["IntrinsicsAMDGPU.h"], "-gen-intrinsic-enums -intrinsic-prefix=amdgcn"),
    NameIn(["IntrinsicsARM.h"], "-gen-intrinsic-enums -intrinsic-prefix=arm"),
    NameIn(["IntrinsicsBPF.h"], "-gen-intrinsic-enums -intrinsic-prefix=bpf"),
    NameIn(["IntrinsicsDirectX.h"], "-gen-intrinsic-enums -intrinsic-prefix=dx"),
    NameIn(["IntrinsicsHexagon.h"], "-gen-intrinsic-enums -intrinsic-prefix=hexagon"),
    NameIn(["IntrinsicsLoongArch.h"], "-gen-intrinsic-enums -intrinsic-prefix=loongarch"),
    NameIn(["IntrinsicsMips.h"], "-gen-intrinsic-enums -intrinsic-prefix=mips")
  ]

  /** One case per target's intrinsics header, targets NVPTX to VE. */
  const IntrinsicHeaderCasesNToZ: seq<Case> := [
    NameIn(["IntrinsicsNVPTX.h"], "-gen-intrinsic-enums -intrinsic-prefix=nvvm"),
    NameIn(["IntrinsicsPowerPC.h"], "-gen-intrinsic-enums -intrinsic-prefix=ppc"),
    NameIn(["IntrinsicsR600.h"], "-gen-intrinsic-enums -intrinsic-prefix=r600"),
    NameIn(["IntrinsicsRISCV.h"], "-gen-intrinsic-enums -intrinsic-prefix=riscv"),
    NameIn(["IntrinsicsS390.h"], "-gen-intrinsic-enums -intrinsic-prefix=s390"),
    NameIn(["IntrinsicsSPIRV.h"], "-gen-intrinsic-enums -intrinsic-prefix=spv"),
    NameIn(["IntrinsicsWebAssembly.h"], "-gen-intrinsic-enums -intrinsic-prefix=wasm"),
    NameIn(["IntrinsicsX86.h"], "-gen-intrinsic-enums -intrinsic-prefix=x86"),
    NameIn(["IntrinsicsXCore.h"], "-gen-intrinsic-enums -intrinsic-prefix=xcore"),
    NameIn(["IntrinsicsVE.h"], "-gen-intrinsic-enums -intrinsic-prefix=ve")
  ]

  /** The directive tables, the value types, and the RISC-V suffix rule last. */
  const TrailingCases: seq<Case> := [
    NameIn(["ACC.h.inc"], "--gen-directive-decl"),
    NameIn(["ACC.inc"], "--gen-directive-impl"),
    NameIn(["OMP.h.inc"], "--gen-directive-decl"),
    NameIn(["OMP.inc"], "--gen-directive-impl"),
    NameIn(["GenVT.inc"], "--gen-vt"),
    SuffixIs(RiscvTargetParserDefSuffix, "-gen-riscv-target-def")
  ]

  /** All cases of the switch, in source order. */
  const Switch: seq<Case> := LeadingCases + IntrinsicHeaderCasesAToM + IntrinsicHeaderCasesNToZ + TrailingCases

  /**
   * Go's tagless switch: the flags of the first case, in order, whose condition
   * holds; `None` when none does.
   */
  function FirstMatch(cases: seq<Case>, base: string): Option<string>
  {
    if cases == [] then None
    else if Matches(cases[0], base) then Some(cases[0].flags)
    else FirstMatch(cases[1..], base)
  }

  /**
   * The switch answers `None` exactly when no case matches, and otherwise the
   * flags of a matching case before which none matches.
   */
  lemma {:induction false} FirstMatchSpec(cases: seq<Case>, base: string)
    ensures FirstMatch(cases, base).None? <==> forall i :: 0 <= i < |cases| ==> !Matches(cases[i], base)
    ensures FirstMatch(cases, base).Some? ==>
              exists i :: 0 <= i < |cases| && Matches(cases[i], base) && FirstMatch(cases, base).value == cases[i].flags &&
                          forall j :: 0 <= j < i ==> !Matches(cases[j], base)
  {
    if cases != [] && !Matches(cases[0], base) {
      FirstMatchSpec(cases[1..], base);
      assert forall i :: 1 <= i < |cases| ==> cases[1..][i - 1] == cases[i];
      if FirstMatch(cases, base).Some? {
        var i :| 0 <= i < |cases[1..]| && Matches(cases[1..][i], base) && FirstMatch(cases, base).value == cases[1..][i].flags &&
                 forall j :: 0 <= j < i ==> !Matches(cases[1..][j], base);
        assert forall j :: 0 <= j < i + 1 ==> !Matches(cases[j], base) by {
          forall j | 0 <= j < i + 1 ensures !Matches(cases[j], base) {
            if j > 0 { assert cases[j] == cases[1..][j - 1]; }
          }
        }
      }
    }
  }

  /**
   * The switch of min_tblgen_outToGenerator over an output's base name. `None`
   * is the "couldn't map output file" error, for which the source returns "".
   */
  function Classify(base: string): Option<string>
  {
    FirstMatch(Switch, base)
  }

  /** min_tblgen_outToGenerator without its error report: the output is cut to its base name first. */
  function OutToGenerator(out: string): Option<string>
  {
    Classify(Paths.Base(out))
  }

  /** The string min_tblgen_outToGenerator returns: "" for an unmapped output. */
  function GeneratorString(out: string): string
  {
    OutToGenerator(out).GetOr("")
  }

  // ---------------------------------------------------------------------------
  // An independent statement of the same table: each known output kind as a
  // generator mode plus, for a target's intrinsics header, the intrinsic prefix;
  // exact names are looked up before the single suffix rule.

  /** The generator modes of llvm-min-tblgen that the module asks for. */
  datatype Mode = Attrs | IntrinsicEnums | IntrinsicImpl | DirectiveDecl | DirectiveImpl | ValueTypes | RiscvTargetDef

  /** The command-line flag selecting a mode. */
  function Flag(m: Mode): (r: string)
    ensures |r| >= 8 && r[0] == '-'
  {
    match m
    case Attrs => "-gen-attrs"
    case IntrinsicEnums => "-gen-intrinsic-enums"
    case IntrinsicImpl => "-gen-intrinsic-impl"
    case DirectiveDecl => "--gen-directive-decl"
    case DirectiveImpl => "--gen-directive-impl"
    case ValueTypes => "--gen-vt"
    case RiscvTargetDef => "-gen-riscv-target-def"
  }

  /** A generator invocation: a mode and, for a target's intrinsics header, its intrinsic prefix. */
  datatype Invocation = Invocation(mode: Mode, intrinsicPrefix: Option<string>)

  /** The flags passed to the tool for an invocation: the mode flag, then the prefix parameter if any. */
  function Render(inv: Invocation): string
  {
    match inv.intrinsicPrefix
    case None => Flag(inv.mode)
    case Some(p) => Flag(inv.mode) + " -intrinsic-prefix=" + p
  }

  /** Output names that select a mode with no parameter. */
  const ModeCatalog: map<string, Mode> := map[
    "Attributes.inc" := Attrs,
    "AttributesCompatFunc.inc" := Attrs,
    "IntrinsicEnums.inc" := IntrinsicEnums,
    "IntrinsicImpl.inc" := IntrinsicImpl,
    "ACC.h.inc" := DirectiveDecl,
    "ACC.inc" := DirectiveImpl,
    "OMP.h.inc" := DirectiveDecl,
    "OMP.inc" := DirectiveImpl,
    "GenVT.inc" := ValueTypes
  ]

  /** Each target's intrinsics header and the intrinsic prefix of that target. */
  const IntrinsicPrefixes: map<string, string> := map[
    "IntrinsicsAArch64.h" := "aarch64",
    "IntrinsicsAMDGPU.h" := "amdgcn",
    "IntrinsicsARM.h" := "arm",
    "IntrinsicsBPF.h" := "bpf",
    "IntrinsicsDirectX.h" := "dx",
    "IntrinsicsHexagon.h" := "hexagon",
    "IntrinsicsLoongArch.h" := "loongarch",
    "IntrinsicsMips.h" := "mips",
    "IntrinsicsNVPTX.h" := "nvvm",
    "IntrinsicsPowerPC.h" := "ppc",
    "IntrinsicsR600.h" := "r600",
    "IntrinsicsRISCV.h" := "riscv",
    "IntrinsicsS390.h" := "s390",
    "IntrinsicsSPIRV.h" := "spv",
    "IntrinsicsWebAssembly.h" := "wasm",
    "IntrinsicsX86.h" := "x86",
    "IntrinsicsXCore.h" := "xcore",
    "IntrinsicsVE.h" := "ve"
  ]

  /** The catalog as a lookup: exact names first, then the RISC-V suffix rule. */
  function Lookup(base: string): Option<Invocation>
  {
    if base in ModeCatalog then Some(Invocation(ModeCatalog[base], None))
    else if base in IntrinsicPrefixes then Some(Invocation(IntrinsicEnums, Some(IntrinsicPrefixes[base])))
    else if Strings.HasSuffix(base, RiscvTargetParserDefSuffix) then Some(Invocation(RiscvTargetDef, None))
    else None
  }

  /** The intrinsic enumeration mode's flag and the prefix parameter's name, up to the prefix itself. */
  const IntrinsicPrefixed := "-gen-intrinsic-enums -intrinsic-prefix="

  /** The flags of the intrinsic enumeration mode with each target's prefix, spelled out. */
  lemma IntrinsicFlagSpellings()
    ensures IntrinsicPrefixed + "aarch64" == "-gen-intrinsic-enums -intrinsic-prefix=aarch64"
    ensures IntrinsicPrefixed + "amdgcn" == "-gen-intrinsic-enums -intrinsic-prefix=amdgcn"
    ensures IntrinsicPrefixed + "arm" == "-gen-intrinsic-enums -intrinsic-prefix=arm"
    ensures IntrinsicPrefixed + "bpf" == "-gen-intrinsic-enums -intrinsic-prefix=bpf"
    ensures IntrinsicPrefixed + "dx" == "-gen-intrinsic-enums -intrinsic-prefix=dx"
    ensures IntrinsicPrefixed + "hexagon" == "-gen-intrinsic-enums -intrinsic-prefix=hexagon"
    ensures IntrinsicPrefixed + "loongarch" == "-gen-intrinsic-enums -intrinsic-prefix=loongarch"
    ensures IntrinsicPrefixed + "mips" == "-gen-intrinsic-enums -intrinsic-prefix=mips"
    ensures IntrinsicPrefixed + "nvvm" == "-gen-intrinsic-enums -intrinsic-prefix=nvvm"
    ensures IntrinsicPrefixed + "ppc" == "-gen-intrinsic-enums -intrinsic-prefix=ppc"
    ensures IntrinsicPrefixed + "r600" == "-gen-intrinsic-enums -intrinsic-prefix=r600"
    ensures IntrinsicPrefixed + "riscv" == "-gen-intrinsic-enums -intrinsic-prefix=riscv"
    ensures IntrinsicPrefixed + "s390" == "-gen-intrinsic-enums -intrinsic-prefix=s390"
    ensures IntrinsicPrefixed + "spv" == "-gen-intrinsic-enums -intrinsic-prefix=spv"
    ensures IntrinsicPrefixed + "wasm" == "-gen-intrinsic-enums -intrinsic-prefix=wasm"
    ensures IntrinsicPrefixed + "x86" == "-gen-intrinsic-enums -intrinsic-prefix=x86"
    ensures IntrinsicPrefixed + "xcore" == "-gen-intrinsic-enums -intrinsic-prefix=xcore"
    ensures IntrinsicPrefixed + "ve" == "-gen-intrinsic-enums -intrinsic-prefix=ve"
  {
  }

  /** Each of the leading cases fires only on a parameterless catalog name, and returns that name's flag. */
  lemma LeadingCasesAgree(c: Case, base: string)
    requires c in LeadingCases && Matches(c, base)
    ensures base in ModeCatalog && c.flags == Flag(ModeCatalog[base])
  {
  }

  /** No intrinsics header is also a parameterless catalog name. */
  lemma CatalogsDisjoint(base: string)
    requires base in IntrinsicPrefixes
    ensures base !in ModeCatalog
  {
  }

  /**
   * Each intrinsics-header case of targets AArch64 to Mips fires only on a
   * catalogued header, and returns the intrinsic enumeration flags with that
   * target's prefix.
   */
  lemma IntrinsicHeaderCasesAToMAgree(c: Case, base: string)
    requires c in IntrinsicHeaderCasesAToM && Matches(c, base)
    ensures base in IntrinsicPrefixes && c.flags == IntrinsicPrefixed + IntrinsicPrefixes[base]
  {
    IntrinsicFlagSpellings();
  }

  /** The same for the intrinsics-header cases of targets NVPTX to VE. */
  lemma IntrinsicHeaderCasesNToZAgree(c: Case, base: string)
    requires c in IntrinsicHeaderCasesNToZ && Matches(c, base)
    ensures base in IntrinsicPrefixes && c.flags == IntrinsicPrefixed + IntrinsicPrefixes[base]
  {
    IntrinsicFlagSpellings();
  }

  /**
   * Each trailing case either fires on a parameterless catalog name and returns
   * its flag, or is the suffix rule firing on a name outside both tables.
   */
  lemma TrailingCasesAgree(c: Case, base: string)
    requires c in TrailingCases && Matches(c, base)
    ensures c.NameIn? ==> base in ModeCatalog && c.flags == Flag(ModeCatalog[base])
    ensures c.SuffixIs? ==>
              base !in ModeCatalog && base !in IntrinsicPrefixes &&
              Strings.HasSuffix(base, RiscvTargetParserDefSuffix) && c.flags == Flag(RiscvTargetDef)
  {
    if c.SuffixIs? {
      assert base[|base| - |RiscvTargetParserDefSuffix|..] == RiscvTargetParserDefSuffix;
    }
  }

  /** Whatever case fires, the catalog knows the name and renders that case's flags. */
  lemma CaseAgrees(c: Case, base: string)
    requires c in Switch && Matches(c, base)
    ensures Lookup(base).Some? && c.flags == Render(Lookup(base).value)
  {
    if c in LeadingCases {
      LeadingCasesAgree(c, base);
    } else if c in IntrinsicHeaderCasesAToM {
      IntrinsicHeaderCasesAToMAgree(c, base);
      CatalogsDisjoint(base);
      RenderIntrinsics(IntrinsicPrefixes[base]);
    } else if c in IntrinsicHeaderCasesNToZ {
      IntrinsicHeaderCasesNToZAgree(c, base);
      CatalogsDisjoint(base);
      RenderIntrinsics(IntrinsicPrefixes[base]);
    } else {
      TrailingCasesAgree(c, base);
    }
  }

  /** Every name in the catalog, and every name with the RISC-V suffix, has a case of its own. */
  lemma CatalogCovered(base: string)
    requires Lookup(base).Some?
    ensures exists c :: c in Switch && Matches(c, base)
  {
    if base in ModeCatalog {
      ModeNameCovered(base);
    } else if base in IntrinsicPrefixes {
      assert base in IntrinsicHeadersAToM || base in IntrinsicHeadersNToZ;
      if base in IntrinsicHeadersAToM {
        IntrinsicHeaderAToMCovered(base);
      } else {
        IntrinsicHeaderNToZCovered(base);
      }
    } else {
      assert Matches(TrailingCases[5], base);
    }
  }

  /** Every parameterless catalog name has a case of its own. */
  lemma ModeNameCovered(base: string)
    requires base in ModeCatalog
    ensures exists c :: (c in LeadingCases || c in TrailingCases) && Matches(c, base)
  {
    if base == "Attributes.inc" || base == "AttributesCompatFunc.inc" {
      assert Matches(LeadingCases[0], base);
    } else if base == "IntrinsicEnums.inc" {
      assert Matches(LeadingCases[1], base);
    } else if base == "IntrinsicImpl.inc" {
      assert Matches(LeadingCases[2], base);
    } else if base == "ACC.h.inc" {
      assert Matches(TrailingCases[0], base);
    } else if base == "ACC.inc" {
      assert Matches(TrailingCases[1], base);
    } else if base == "OMP.h.inc" {
      assert Matches(TrailingCases[2], base);
    } else if base == "OMP.inc" {
      assert Matches(TrailingCases[3], base);
    } else {
      assert Matches(TrailingCases[4], base);
    }
  }

  /** The headers of targets AArch64 to Mips. */
  const IntrinsicHeadersAToM: set<string> := {"IntrinsicsAArch64.h", "IntrinsicsAMDGPU.h", "IntrinsicsARM.h", "IntrinsicsBPF.h", "IntrinsicsDirectX.h", "IntrinsicsHexagon.h", "IntrinsicsLoongArch.h", "IntrinsicsMips.h"}

  /** The headers of targets NVPTX to VE. */
  const IntrinsicHeadersNToZ: set<string> := {"IntrinsicsNVPTX.h", "IntrinsicsPowerPC.h", "IntrinsicsR600.h", "IntrinsicsRISCV.h", "IntrinsicsS390.h", "IntrinsicsSPIRV.h", "IntrinsicsWebAssembly.h", "IntrinsicsX86.h", "IntrinsicsXCore.h", "IntrinsicsVE.h"}

  /** Every catalogued header of targets AArch64 to Mips has a case of its own. */
  lemma IntrinsicHeaderAToMCovered(base: string)
    requires base in IntrinsicHeadersAToM
    ensures exists c :: c in IntrinsicHeaderCasesAToM && Matches(c, base)
  {
    if base == "IntrinsicsAArch64.h" {
      assert Matches(IntrinsicHeaderCasesAToM[0], base);
    } else if base == "IntrinsicsAMDGPU.h" {
      assert Matches(IntrinsicHeaderCasesAToM[1], base);
    } else if base == "IntrinsicsARM.h" {
      assert Matches(IntrinsicHeaderCasesAToM[2], base);
    } else if base == "IntrinsicsBPF.h" {
      assert Matches(IntrinsicHeaderCasesAToM[3], base);
    } else if base == "IntrinsicsDirectX.h" {
      assert Matches(IntrinsicHeaderCasesAToM[4], base);
    } else if base == "IntrinsicsHexagon.h" {
      assert Matches(IntrinsicHeaderCasesAToM[5], base);
    } else if base == "IntrinsicsLoongArch.h" {
      assert Matches(IntrinsicHeaderCasesAToM[6], base);
    } else {
      assert Matches(IntrinsicHeaderCasesAToM[7], base);
    }
  }

  /** Every catalogued header of targets NVPTX to VE has a case of its own. */
  lemma IntrinsicHeaderNToZCovered(base: string)
    requires base in IntrinsicHeadersNToZ
    ensures exists c :: c in IntrinsicHeaderCasesNToZ && Matches(c, base)
  {
    if base == "IntrinsicsNVPTX.h" {
      assert Matches(IntrinsicHeaderCasesNToZ[0], base);
    } else if base == "IntrinsicsPowerPC.h" {
      assert Matches(IntrinsicHeaderCasesNToZ[1], base);
    } else if base == "IntrinsicsR600.h" {
      assert Matches(IntrinsicHeaderCasesNToZ[2], base);
    } else if base == "IntrinsicsRISCV.h" {
      assert Matches(IntrinsicHeaderCasesNToZ[3], base);
    } else if base == "IntrinsicsS390.h" {
      assert Matches(IntrinsicHeaderCasesNToZ[4], base);
    } else if base == "IntrinsicsSPIRV.h" {
      assert Matches(IntrinsicHeaderCasesNToZ[5], base);
    } else if base == "IntrinsicsWebAssembly.h" {
      assert Matches(IntrinsicHeaderCasesNToZ[6], base);
    } else if base == "IntrinsicsX86.h" {
      assert Matches(IntrinsicHeaderCasesNToZ[7], base);
    } else if base == "IntrinsicsXCore.h" {
      assert Matches(IntrinsicHeaderCasesNToZ[8], base);
    } else {
      assert Matches(IntrinsicHeaderCasesNToZ[9], base);
    }
  }

  /** The intrinsic enumeration mode renders as its flag, the parameter name and the prefix. */
  lemma RenderIntrinsics(prefix: string)
    ensures Render(Invocation(IntrinsicEnums, Some(prefix))) == IntrinsicPrefixed + prefix
  {
  }

  /** Every target's intrinsics header yields the intrinsic enumeration flags with that target's prefix. */
  lemma IntrinsicHeadersClassify(h: string)
    requires h in IntrinsicPrefixes
    ensures Classify(h) == Some(IntrinsicPrefixed + IntrinsicPrefixes[h])
  {
    CatalogsDisjoint(h);
    ClassifyMatchesCatalog(h);
    RenderIntrinsics(IntrinsicPrefixes[h]);
  }

  /** The switch and the catalog agree on every base name, recognised or not. */
  lemma ClassifyMatchesCatalog(base: string)
    ensures Classify(base).Some? <==> Lookup(base).Some?
    ensures Lookup(base).Some? ==> Classify(base).value == Render(Lookup(base).value)
  {
    FirstMatchSpec(Switch, base);
    if Classify(base).Some? {
      var i :| 0 <= i < |Switch| && Matches(Switch[i], base) && Classify(base).value == Switch[i].flags;
      CaseAgrees(Switch[i], base);
    } else if Lookup(base).Some? {
      CatalogCovered(base);
    }
  }

  /** Every parameterless catalog name yields exactly its mode's flag. */
  lemma ModeNamesClassify(base: string)
    requires base in ModeCatalog
    ensures Classify(base) == Some(Flag(ModeCatalog[base]))
  {
    ClassifyMatchesCatalog(base);
  }

  /** The attribute tables and the target-independent intrinsic tables. */
  lemma AttributeAndIntrinsicTableNames()
    ensures Classify("Attributes.inc") == Classify("AttributesCompatFunc.inc") == Some("-gen-attrs")
    ensures Classify("IntrinsicEnums.inc") == Some("-gen-intrinsic-enums")
    ensures Classify("IntrinsicImpl.inc") == Some("-gen-intrinsic-impl")
  {
    ModeNamesClassify("Attributes.inc");
    ModeNamesClassify("AttributesCompatFunc.inc");
    ModeNamesClassify("IntrinsicEnums.inc");
    ModeNamesClassify("IntrinsicImpl.inc");
  }

  /** The OpenACC and OpenMP directive tables and the value-type table. */
  lemma DirectiveAndValueTypeNames()
    ensures Classify("ACC.h.inc") == Classify("OMP.h.inc") == Some("--gen-directive-decl")
    ensures Classify("ACC.inc") == Classify("OMP.inc") == Some("--gen-directive-impl")
    ensures Classify("GenVT.inc") == Some("--gen-vt")
  {
    ModeNamesClassify("ACC.h.inc");
    ModeNamesClassify("OMP.h.inc");
    ModeNamesClassify("ACC.inc");
    ModeNamesClassify("OMP.inc");
    ModeNamesClassify("GenVT.inc");
  }

  /** A name outside the catalog is rejected. */
  lemma UnknownNameRejected()
    ensures Classify("Unknown.inc") == None
  {
    assert "Unknown.inc" !in ModeCatalog;
    assert "Unknown.inc" !in IntrinsicPrefixes;
    ClassifyMatchesCatalog("Unknown.inc");
  }

  /** Any name ending in the RISC-V suffix, whatever comes before it, selects the target-parser mode. */
  lemma RiscvSuffixFamily(prefix: string)
    ensures Classify(prefix + RiscvTargetParserDefSuffix) == Some("-gen-riscv-target-def")
  {
    var base := prefix + RiscvTargetParserDefSuffix;
    assert base[|base| - |RiscvTargetParserDefSuffix|..] == RiscvTargetParserDefSuffix;
    assert base !in ModeCatalog && base !in IntrinsicPrefixes;
    ClassifyMatchesCatalog(base);
  }

  /**
   * The target-parser mode is chosen only by the suffix rule, and only for a name
   * that no exact case matched.
   */
  lemma RiscvOnlyBySuffix(base: string)
    requires Classify(base) == Some("-gen-riscv-target-def")
    ensures Strings.HasSuffix(base, RiscvTargetParserDefSuffix)
    ensures base !in ModeCatalog && base !in IntrinsicPrefixes
  {
    ClassifyMatchesCatalog(base);
  }

  /** Only the base name matters: any directory in front of a plain name is ignored. */
  lemma DirectoryIgnored(dir: string, name: string)
    requires name != "" && '/' !in name
    ensures OutToGenerator(dir + "/" + name) == Classify(name)
  {
    Paths.BaseOfJoin(dir, name);
  }

  /** Cutting an output to its base name first does not change its generator. */
  lemma BaseNameSuffices(out: string)
    ensures OutToGenerator(Paths.Base(out)) == OutToGenerator(out)
  {
    Paths.BaseIdempotent(out);
  }

  /** An output is recognised exactly when its generator string is not empty. */
  lemma RecognisedIffNonEmpty(out: string)
    ensures OutToGenerator(out).Some? <==> GeneratorString(out) != ""
  {
    ClassifyMatchesCatalog(Paths.Base(out));
  }
}
