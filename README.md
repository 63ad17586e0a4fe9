# llvm_min_tblgen: a verified model

This project models the `llvm_min_tblgen` Soong module type, defined in
`llvm/soong/min_tblgen.go`. A module of this type names one TableGen input
file and a list of outputs. For each output, the module registers one build
action that runs `llvm-min-tblgen` with two arguments:

- the four `-I <dir>` search roots, joined by spaces;
- the generator flags for that output, chosen from the output's base name by
  a fixed switch.

The module then publishes the generated headers. It also publishes its
generated-output root as the one directory downstream modules search.

Files:

- `wrappers.dfy`: module `Wrappers`, with the `Option` datatype.
- `strings.dfy`: module `Strings`, with `strings.HasSuffix` and `strings.Join`.
- `paths.dfy`: module `Paths`. `filepath.Base` is modelled exactly, for Unix
  separators. `filepath.Dir` is modelled for clean paths.
- `classifier.dfy`: module `Classifier`, modelling `min_tblgen_outToGenerator`.
  - The switch is a table of cases in source order, walked first match first
    (`Switch`, `FirstMatch`, `Classify`, `OutToGenerator`).
  - An independent catalog states the same mapping a second way. It pairs
    generator modes with intrinsic prefixes (`ModeCatalog`,
    `IntrinsicPrefixes`, `Lookup`). `Render` is its definition of the flags
    for an invocation: the mode flag, then " -intrinsic-prefix=" and the
    prefix when there is one.
  - `ClassifyMatchesCatalog` proves the two agree on every base name.
- `min_tblgen.dfy`: module `MinTblgen`, modelling registration.
  - `ModuleContext` records the host's `ModuleBuild` and `ModuleErrorf`
    calls as sequences.
  - `MinTblgenModule` is a class with the module's two `android.Paths`
    fields and its accessors. Its `GenerateAndroidBuildActions` is a loop
    proved against the specification functions `Actions`, `Errors` and
    `GeneratedPaths`.

The code departs from one stated design intent, and the model follows the
code. The module type's design note says an unrecognised output aborts
registration for the module. The code reports the error through
`ctx.ModuleErrorf` (`llvm/soong/min_tblgen.go:150`) and returns `""`. The
loop then goes on: it registers that output's action with an empty generator
argument and handles every later output too. `MinTblgen.UnmappedStillRegistered`
states this for the actions. For the errors, `MinTblgen.EveryUnmappedReported`
and `MinTblgen.UnmappedErrorsInOrder` state that every unrecognised output gets
an error of its own, in order, and `MinTblgen.ErrorsNameUnmappedOutputs` states
that no other error is reported.

## Model

| member | source | states |
|---|---|---|
| Strings.Join | llvm/soong/min_tblgen.go:81 | Joining no strings gives "". Otherwise the result's length is the elements' total length plus one separator between each neighbouring pair, and the result starts with the first element. |
| Strings.JoinFour | llvm/soong/min_tblgen.go:81 | Joining the four include flags puts exactly one separator between each neighbouring pair and none at either end. |
| Strings.HasSuffix | llvm/soong/min_tblgen.go:146 | No contract of its own: strings.HasSuffix, the test of the last case of the switch. Used by Classifier.RiscvSuffixFamily and Classifier.RiscvOnlyBySuffix. |
| Paths.Base | llvm/soong/min_tblgen.go:92 | No contract of its own: filepath.Base, specified by Paths.BaseSpec, Paths.BaseOfJoin and Paths.BaseIdempotent. |
| Paths.TrimTrailingSlashesSpec | llvm/soong/min_tblgen.go:92 | Dropping trailing slashes keeps a prefix of the path and removes only '/' characters. Nothing left ends in '/'. |
| Paths.AfterLastSlash | llvm/soong/min_tblgen.go:92 | The last element is never longer than the path. |
| Paths.AfterLastSlashSpec | llvm/soong/min_tblgen.go:92 | The last element is a suffix of the path without '/'. A '/' comes right before it unless it is the whole path. |
| Paths.BaseSpec | llvm/soong/min_tblgen.go:92 | filepath.Base never returns "". It returns a string with '/' only when the result is "/". A non-empty path without '/' is its own base name. |
| Paths.BaseOfJoin | llvm/soong/min_tblgen.go:92 | For any directory, the base name of `dir/name` is `name` when `name` is a single element. |
| Paths.BaseIdempotent | llvm/soong/min_tblgen.go:92 | Taking the base name of a base name changes nothing. |
| Paths.Dir | llvm/soong/min_tblgen.go:69 | No contract of its own: filepath.Dir on clean paths, specified by Paths.DirOfJoin. |
| Paths.DirOfJoin | llvm/soong/min_tblgen.go:69 | Paths.Dir of `dir/name` is `dir` when `dir` is non-empty without a trailing '/' and `name` is one element; for a clean `dir` this is what filepath.Dir returns. |
| Classifier.FirstMatch | llvm/soong/min_tblgen.go:93-148 | No contract of its own: the tagless switch, tried case by case in source order. Specified by Classifier.FirstMatchSpec. |
| Classifier.Classify | llvm/soong/min_tblgen.go:93-148 | No contract of its own: the switch of the source over a base name. Specified by Classifier.ClassifyMatchesCatalog and the name lemmas below. |
| Classifier.OutToGenerator | llvm/soong/min_tblgen.go:91-148 | No contract of its own: the output cut to its base name, then classified. Specified by Classifier.DirectoryIgnored and Classifier.BaseNameSuffices. |
| Classifier.GeneratorString | llvm/soong/min_tblgen.go:151 | No contract of its own: the string returned, "" for an unmapped output. Specified by Classifier.RecognisedIffNonEmpty. |
| Classifier.FirstMatchSpec | llvm/soong/min_tblgen.go:93-148 | The tagless switch gives no answer exactly when no case holds. Otherwise it returns the flags of a case that holds and that no earlier case precedes: the first match wins. |
| Classifier.Flag | llvm/soong/min_tblgen.go:94-147 | Every generator mode flag is an option: it starts with '-' and has at least 8 characters. |
| Classifier.LeadingCasesAgree | llvm/soong/min_tblgen.go:94-99 | Each of the first three cases holds only for a parameterless catalog name and returns that name's mode flag. |
| Classifier.CatalogsDisjoint | llvm/soong/min_tblgen.go:94-145 | No intrinsics header name is also a parameterless catalog name. |
| Classifier.IntrinsicHeaderCasesAToMAgree | llvm/soong/min_tblgen.go:100-115 | Each intrinsics-header case for AArch64 to Mips holds only for a catalogued header. It returns the intrinsic-enumeration flags with that header's prefix. |
| Classifier.IntrinsicHeaderCasesNToZAgree | llvm/soong/min_tblgen.go:116-135 | The same for the intrinsics-header cases for NVPTX to VE. |
| Classifier.TrailingCasesAgree | llvm/soong/min_tblgen.go:136-147 | A directive or value-type case returns its catalog name's mode flag. The suffix case holds only for names outside both catalogs that end in the RISC-V suffix, and returns the target-parser flag. |
| Classifier.CaseAgrees | llvm/soong/min_tblgen.go:93-147 | Whichever case of the switch holds for a name, the catalog knows the name and renders exactly that case's flags. |
| Classifier.CatalogCovered | llvm/soong/min_tblgen.go:93-147 | Every name the catalog knows has a case of the switch that holds for it, including every name with the RISC-V suffix. |
| Classifier.ModeNameCovered | llvm/soong/min_tblgen.go:94-145 | Every parameterless catalog name has a leading or trailing case that holds for it. |
| Classifier.IntrinsicHeaderAToMCovered | llvm/soong/min_tblgen.go:100-115 | Every intrinsics header for AArch64 to Mips has a case of its own. |
| Classifier.IntrinsicHeaderNToZCovered | llvm/soong/min_tblgen.go:116-135 | Every intrinsics header for NVPTX to VE has a case of its own. |
| Classifier.IntrinsicHeadersClassify | llvm/soong/min_tblgen.go:100-135 | Every target's intrinsics header yields "-gen-intrinsic-enums -intrinsic-prefix=" followed by that target's prefix (aarch64, amdgcn, …, nvvm, ppc, spv, wasm, …). |
| Classifier.ClassifyMatchesCatalog | llvm/soong/min_tblgen.go:93-151 | The switch recognises a base name exactly when the catalog knows it. For a known name it returns the catalog's rendering of that name's invocation. |
| Classifier.ModeNamesClassify | llvm/soong/min_tblgen.go:94-145 | Every parameterless catalog name yields exactly its mode's flag. No later case, including the suffix rule, overrides it. |
| Classifier.AttributeAndIntrinsicTableNames | llvm/soong/min_tblgen.go:94-99 | Attributes.inc and AttributesCompatFunc.inc give -gen-attrs. IntrinsicEnums.inc gives -gen-intrinsic-enums. IntrinsicImpl.inc gives -gen-intrinsic-impl. |
| Classifier.DirectiveAndValueTypeNames | llvm/soong/min_tblgen.go:136-145 | ACC.h.inc and OMP.h.inc give --gen-directive-decl. ACC.inc and OMP.inc give --gen-directive-impl. GenVT.inc gives --gen-vt. |
| Classifier.UnknownNameRejected | llvm/soong/min_tblgen.go:148-151 | A name outside the catalog falls through the switch unmatched. |
| Classifier.RiscvSuffixFamily | llvm/soong/min_tblgen.go:146-147 | Any name ending in RISCVTargetParserDef.inc, whatever comes before it, gives -gen-riscv-target-def. |
| Classifier.RiscvOnlyBySuffix | llvm/soong/min_tblgen.go:93-147 | -gen-riscv-target-def is chosen only for names that end in the suffix and that no exact case names. |
| Classifier.DirectoryIgnored | llvm/soong/min_tblgen.go:91-92 | The directories in front of an output's name do not affect its generator. |
| Classifier.BaseNameSuffices | llvm/soong/min_tblgen.go:91-92 | An output and its base name always get the same generator. |
| Classifier.RecognisedIffNonEmpty | llvm/soong/min_tblgen.go:146-151 | An output is recognised exactly when the returned generator string is non-empty. An unrecognised output gets "". |
| MinTblgen.PathForModuleSrc | llvm/soong/min_tblgen.go:63 | No contract of its own: the input's path below the module directory. Used by MinTblgen.InputDirectoryIsModuleDir. |
| MinTblgen.PathForModuleGen | llvm/soong/min_tblgen.go:73 | No contract of its own: an output's path below the generated-output root, or the root itself for "" (line 88). Specified by MinTblgen.OutputsUnderGenRoot. |
| MinTblgen.Includes | llvm/soong/min_tblgen.go:65-70 | No contract of its own: the four search roots in order. Specified by MinTblgen.IncludeArgument and MinTblgen.InputDirectoryIsModuleDir. |
| MinTblgen.JoinedIncludes | llvm/soong/min_tblgen.go:81 | No contract of its own: the roots joined by single spaces. Specified by MinTblgen.IncludeArgument. |
| MinTblgen.ActionFor | llvm/soong/min_tblgen.go:76-84 | No contract of its own: one output's build action. Specified by MinTblgen.ActionsInOrder and MinTblgen.UnmappedStillRegistered. |
| MinTblgen.ErrorFor | llvm/soong/min_tblgen.go:150 | No contract of its own: one output's error, if any. Specified by MinTblgen.EveryUnmappedReported and MinTblgen.ErrorsNameUnmappedOutputs. |
| MinTblgen.Actions | llvm/soong/min_tblgen.go:72-86 | Registration records exactly one build action per requested output. |
| MinTblgen.Errors | llvm/soong/min_tblgen.go:72-86 | Registration reports at most one error per requested output. Which errors, and where, is stated by MinTblgen.EveryUnmappedReported, MinTblgen.UnmappedErrorsInOrder and MinTblgen.ErrorsNameUnmappedOutputs. |
| MinTblgen.GeneratedPaths | llvm/soong/min_tblgen.go:85 | One generated header per requested output. |
| MinTblgen.ModuleContext.ModuleBuild | llvm/soong/min_tblgen.go:76-84 | Registering a build action appends it to the recorded actions and leaves the reported errors alone. |
| MinTblgen.ModuleContext.ModuleErrorf | llvm/soong/min_tblgen.go:150 | Reporting an error appends it to the recorded errors and leaves the registered actions alone. |
| MinTblgen.OutToGenerator | llvm/soong/min_tblgen.go:91-152 | The method returns the switch's flags, or "" for an unmapped output. For an unmapped output it reports exactly one error naming the base name; otherwise it reports none. It registers nothing. |
| MinTblgen.RegisterOutput | llvm/soong/min_tblgen.go:73-84 | One pass of the loop returns the output's path under the generated-output root. It appends exactly that output's build action and that output's error, if any. |
| MinTblgen.MinTblgenModule.constructor | llvm/soong/min_tblgen.go:169-174 | A new module holds its properties, with no generated headers and no exported header directories. |
| MinTblgen.MinTblgenModule.GenerateAndroidBuildActions | llvm/soong/min_tblgen.go:62-89 | The recorded actions grow by `Actions(Outs)` and the reported errors by `Errors(Outs)`. `GeneratedDeps()` grows by the outputs' generated paths, in order. `GeneratedHeaderDirs()` grows by exactly the generated-output root, even for no outputs. |
| MinTblgen.RegisteredPrefixGrows | llvm/soong/min_tblgen.go:72-86 | Handling output i extends the actions, errors and headers registered for the first i outputs by exactly that output's share. |
| MinTblgen.ActionsInOrder | llvm/soong/min_tblgen.go:72-86 | The i-th registered action belongs to the i-th output. It reads the module's input, writes that output, runs that output's generator and carries the shared include argument. |
| MinTblgen.SharedIncludes | llvm/soong/min_tblgen.go:63-81 | Any two registered actions have the same input and the same include argument. |
| MinTblgen.UnmappedStillRegistered | llvm/soong/min_tblgen.go:74-84 | An output the switch does not map is still registered, with output path under the generated root and an empty generator argument. |
| MinTblgen.OutputsUnderGenRoot | llvm/soong/min_tblgen.go:73 | Every named output is written to a path that starts with the generated-output root followed by '/'. |
| MinTblgen.PublishedHeadersMatchActions | llvm/soong/min_tblgen.go:85 | The i-th published header is exactly the output of the i-th registered action. |
| MinTblgen.AllRecognisedNoErrors | llvm/soong/min_tblgen.go:72-86 | When every output is recognised, registration reports no error. |
| MinTblgen.UnrecognisedReported | llvm/soong/min_tblgen.go:150 | A single unrecognised output is enough for registration to report an error. |
| MinTblgen.NoErrorsIffAllRecognised | llvm/soong/min_tblgen.go:72-86 | Registration reports no error exactly when every requested output is recognised. |
| MinTblgen.ErrorsNameUnmappedOutputs | llvm/soong/min_tblgen.go:150 | Every reported error names the base name of a requested output that the switch does not map. |
| MinTblgen.ErrorsOfPrefix | llvm/soong/min_tblgen.go:72-86 | The errors reported for the first n outputs are the start of the errors reported for all outputs: later outputs only add errors. |
| MinTblgen.EveryUnmappedReported | llvm/soong/min_tblgen.go:72-86 | Every unrecognised output gets its own error naming its base name. It sits right after the errors of the outputs before it. |
| MinTblgen.UnmappedErrorsInOrder | llvm/soong/min_tblgen.go:72-86 | The errors of two different unrecognised outputs sit at different positions, in the order of the outputs. |
| MinTblgen.IncludeArgument | llvm/soong/min_tblgen.go:65-81 | The include argument is the four "-I" flags in search order: module directory, LLVM include, LLVM target directory, input's directory. Single spaces separate them. |
| MinTblgen.InputDirectoryIsModuleDir | llvm/soong/min_tblgen.go:63-69 | When the input sits directly in the module's directory, the last search root equals the first. |

## Left out

- Module-type registration, the factory's Soong plumbing and the empty
  `DepsMutator` (lines 27-29, 154-155, 169-174) are host boilerplate. Only
  the module's starting state is kept, as the `MinTblgenModule` constructor.
- The package context, the host tool variable and the `min_tblgenRule`
  rule (lines 31-44) are left out. A build action keeps only the rule's
  per-action data: input, output, includes and generator. Running the
  command and reading its depfile belong to the host.
- `android.PathForModuleSrc` and `android.PathForModuleGen` are host
  functions and are not part of this model. They are modelled as `moduleDir
  + "/" + p` and `genRoot + "/" + p`, with "" naming the generated root
  itself. A missing input file, which the host reports, is not modelled:
  both allocators are total.
- `Paths.Dir` matches `filepath.Dir` only for paths that are already clean.
  It does not collapse "." or ".." elements or doubled slashes before the
  last element. `Paths.Base` follows `filepath.Base` exactly, with '/' as
  the only separator.
- The include argument and the output paths match the host's only for clean
  `In` and `Outs` entries. The host builds its paths with `filepath.Join`,
  which cleans them; the model concatenates. For `In` = "./x.td" the host's
  fourth include is "-I <moduleDir>" while the model's is "-I <moduleDir>/.".
- `ctx.ModuleErrorf` formats its message with `%q`. The model records the
  error as `UnmappedOutput(base)`, without Go's quoting and escaping.
- Classifier.Flag: its contract states only that every flag is an option
  at least 8 characters long. The exact spellings are stated through
  `Classifier.AttributeAndIntrinsicTableNames`,
  `Classifier.DirectiveAndValueTypeNames` and `Classifier.RiscvSuffixFamily`.
- `GeneratedHeaderDirs`, `GeneratedDeps` and `GeneratedSourceFiles` (lines
  157-167) are plain reads of the module's fields, or the empty list. They
  carry no contract of their own. What they return after registration is
  stated by `GenerateAndroidBuildActions`.
- Soong evaluates modules concurrently. Each module's registration is
  sequential, and that is what the model covers.
