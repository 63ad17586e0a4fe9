/**
 * The llvm_min_tblgen module type: for each requested output it registers one
 * llvm-min-tblgen build action with the host build graph, then publishes the
 * generated headers and the directory that holds them.
 */
module MinTblgen {
  import opened Wrappers
  import Strings
  import Paths
  import Classifier

  /** The two fixed search roots inside the LLVM tree. */
  const LlvmInclude := "external/llvm-project/llvm/include"
  const LlvmTargetInclude := "external/llvm-project/llvm/lib/Target"

  /** Where the host places a module: its source directory and its generated-output root. */
  datatype Layout = Layout(moduleDir: string, genRoot: string)

  /** android.PathForModuleSrc: a path given relative to the module's directory. */
  function PathForModuleSrc(layout: Layout, p: string): string
  {
    layout.moduleDir + "/" + p
  }

  /** android.PathForModuleGen: a path under the module's generated-output root; "" names the root itself. */
  function PathForModuleGen(layout: Layout, p: string): string
  {
    if p == "" then layout.genRoot else layout.genRoot + "/" + p
  }

  /**
   * The include flags handed to the tool, in search order: the module's directory,
   * LLVM's public headers, LLVM's target directories, and the input's own directory.
   */
  function Includes(layout: Layout, input: string): seq<string>
  {
    ["-I " + layout.moduleDir, "-I " + LlvmInclude, "-I " + LlvmTargetInclude, "-I " + Paths.Dir(input)]
  }

  /** The `includes` argument of every build action. */
  function JoinedIncludes(layout: Layout, input: string): string
  {
    Strings.Join(Includes(layout, input), " ")
  }

  /** One ctx.ModuleBuild call with min_tblgenRule: its input, its output and the rule's two per-action arguments. */
  datatype BuildAction = BuildAction(input: string, output: string, includes: string, generator: string)

  /** What ctx.ModuleErrorf reports: an output whose base name no case maps to a generator. */
  datatype ModuleError = UnmappedOutput(base: string)

  /** The build action registered for the requested output `o`. */
  function ActionFor(layout: Layout, inProp: string, o: string): BuildAction
  {
    var input := PathForModuleSrc(layout, inProp);
    BuildAction(input, PathForModuleGen(layout, o), JoinedIncludes(layout, input), Classifier.GeneratorString(o))
  }

  /** The error, if any, reported while classifying the requested output `o`. */
  function ErrorFor(o: string): seq<ModuleError>
  {
    if Classifier.OutToGenerator(o).None? then [UnmappedOutput(Paths.Base(o))] else []
  }

  /** The build actions registered for `outs`, in order. */
  function Actions(layout: Layout, inProp: string, outs: seq<string>): (r: seq<BuildAction>)
    ensures |r| == |outs|
  {
    if outs == [] then []
    else Actions(layout, inProp, outs[..|outs| - 1]) + [ActionFor(layout, inProp, outs[|outs| - 1])]
  }

  /** The errors reported while registering `outs`, in order. */
  function Errors(outs: seq<string>): (r: seq<ModuleError>)
    ensures |r| <= |outs|
  {
    if outs == [] then [] else Errors(outs[..|outs| - 1]) + ErrorFor(outs[|outs| - 1])
  }

  /** The generated paths of `outs`, in order. */
  function GeneratedPaths(layout: Layout, outs: seq<string>): (r: seq<string>)
    ensures |r| == |outs|
  {
    if outs == [] then [] else GeneratedPaths(layout, outs[..|outs| - 1]) + [PathForModuleGen(layout, outs[|outs| - 1])]
  }

  /** The host's module context, recording what the module registers and reports. */
  class ModuleContext {
    const layout: Layout
    /** The build actions registered through ModuleBuild, oldest first. */
    var actions: seq<BuildAction>
    /** The errors reported through ModuleErrorf, oldest first. */
    var errors: seq<ModuleError>

    constructor (layout: Layout)
      ensures this.layout == layout && actions == [] && errors == []
    {
      this.layout := layout;
      actions := [];
      errors := [];
    }

    /** ctx.ModuleBuild: registers one build action. */
    method ModuleBuild(a: BuildAction)
      modifies this
      ensures actions == old(actions) + [a] && errors == old(errors)
    {
      actions := actions + [a];
    }

    /** ctx.ModuleErrorf: reports an error against the module; registration carries on. */
    method ModuleErrorf(e: ModuleError)
      modifies this
      ensures errors == old(errors) + [e] && actions == old(actions)
    {
      errors := errors + [e];
    }
  }

  /**
   * min_tblgen_outToGenerator: the generator flags for output `out`, reporting an
   * error and answering "" when its base name matches no case.
   */
  method OutToGenerator(ctx: ModuleContext, out: string) returns (generator: string)
    modifies ctx
    ensures generator == Classifier.GeneratorString(out)
    ensures ctx.errors == old(ctx.errors) + ErrorFor(out) && ctx.actions == old(ctx.actions)
  {
    var base := Paths.Base(out);
    match Classifier.Classify(base) {
      case Some(g) =>
        generator := g;
      case None =>
        ctx.ModuleErrorf(UnmappedOutput(base));
        generator := "";
    }
  }

  /**
   * One pass of the registration loop: the output's path under the generated-output
   * root, its generator (reporting an unmapped output), and its build action.
   */
  method RegisterOutput(ctx: ModuleContext, inProp: string, o: string) returns (out: string)
    modifies ctx
    ensures out == PathForModuleGen(ctx.layout, o)
    ensures ctx.actions == old(ctx.actions) + [ActionFor(ctx.layout, inProp, o)]
    ensures ctx.errors == old(ctx.errors) + ErrorFor(o)
  {
    var input := PathForModuleSrc(ctx.layout, inProp);
    var includes := Includes(ctx.layout, input);
    out := PathForModuleGen(ctx.layout, o);
    var generator := OutToGenerator(ctx, o);
    ctx.ModuleBuild(BuildAction(input, out, Strings.Join(includes, " "), generator));
  }

  /** The properties of an llvm_min_tblgen module: one input file and the outputs to generate from it. */
  datatype Properties = Properties(In: string, Outs: seq<string>)

  /** An llvm_min_tblgen module instance. */
  class MinTblgenModule {
    const properties: Properties
    var exportedHeaderDirs: seq<string>
    var generatedHeaders: seq<string>

    constructor (properties: Properties)
      ensures this.properties == properties && exportedHeaderDirs == [] && generatedHeaders == []
    {
      this.properties := properties;
      exportedHeaderDirs := [];
      generatedHeaders := [];
    }

    /** The directories downstream modules search for the generated headers. */
    function GeneratedHeaderDirs(): seq<string>
      reads this
    {
      exportedHeaderDirs
    }

    /** The module generates headers only, never source files. */
    function GeneratedSourceFiles(): seq<string>
    {
      []
    }

    /** The generated headers downstream modules depend on. */
    function GeneratedDeps(): seq<string>
      reads this
    {
      generatedHeaders
    }

    /**
     * Registers one build action per requested output, in order, each with the same
     * include argument; an unmapped output is reported and still registered. Then
     * publishes the generated-output root as the one header directory.
     */
    method GenerateAndroidBuildActions(ctx: ModuleContext)
      modifies this, ctx
      ensures ctx.actions == old(ctx.actions) + Actions(ctx.layout, properties.In, properties.Outs)
      ensures ctx.errors == old(ctx.errors) + Errors(properties.Outs)
      ensures GeneratedDeps() == old(GeneratedDeps()) + GeneratedPaths(ctx.layout, properties.Outs)
      ensures GeneratedHeaderDirs() == old(GeneratedHeaderDirs()) + [ctx.layout.genRoot]
    {
      var outs := properties.Outs;
      for i := 0 to |outs|
        invariant ctx.actions == old(ctx.actions) + Actions(ctx.layout, properties.In, outs[..i])
        invariant ctx.errors == old(ctx.errors) + Errors(outs[..i])
        invariant generatedHeaders == old(generatedHeaders) + GeneratedPaths(ctx.layout, outs[..i])
        invariant exportedHeaderDirs == old(exportedHeaderDirs)
      {
        var out := RegisterOutput(ctx, properties.In, outs[i]);
        generatedHeaders := generatedHeaders + [out];
        RegisteredPrefixGrows(ctx.layout, properties.In, outs, i, old(ctx.actions), old(ctx.errors), old(generatedHeaders));
      }
      assert outs[..|outs|] == outs;
      exportedHeaderDirs := exportedHeaderDirs + [PathForModuleGen(ctx.layout, "")];
    }
  }

  /**
   * Registering one more output extends each record, on top of what it held
   * before registration began, by that output's share.
   */
  lemma RegisteredPrefixGrows(layout: Layout, inProp: string, outs: seq<string>, i: nat,
                              actions0: seq<BuildAction>, errors0: seq<ModuleError>, headers0: seq<string>)
    requires i < |outs|
    ensures actions0 + Actions(layout, inProp, outs[..i + 1]) == actions0 + Actions(layout, inProp, outs[..i]) + [ActionFor(layout, inProp, outs[i])]
    ensures errors0 + Errors(outs[..i + 1]) == errors0 + Errors(outs[..i]) + ErrorFor(outs[i])
    ensures headers0 + GeneratedPaths(layout, outs[..i + 1]) == headers0 + GeneratedPaths(layout, outs[..i]) + [PathForModuleGen(layout, outs[i])]
  {
    assert outs[..i + 1][..i] == outs[..i];
  }

  // ---------------------------------------------------------------------------
  // What registration promises.

  /**
   * One action per requested output, in the outputs' order: the i-th action reads
   * the module's input, writes the i-th output under the generated-output root,
   * runs the i-th output's generator and carries the shared include argument.
   */
  lemma {:induction false} ActionsInOrder(layout: Layout, inProp: string, outs: seq<string>)
    ensures forall i :: 0 <= i < |outs| ==> Actions(layout, inProp, outs)[i] == ActionFor(layout, inProp, outs[i])
  {
    if outs != [] {
      var init := outs[..|outs| - 1];
      ActionsInOrder(layout, inProp, init);
      assert forall i :: 0 <= i < |init| ==> init[i] == outs[i];
    }
  }

  /** Every action carries the same input and the same include argument. */
  lemma SharedIncludes(layout: Layout, inProp: string, outs: seq<string>, i: nat, j: nat)
    requires i < |outs| && j < |outs|
    ensures Actions(layout, inProp, outs)[i].includes == Actions(layout, inProp, outs)[j].includes
    ensures Actions(layout, inProp, outs)[i].input == Actions(layout, inProp, outs)[j].input
  {
    ActionsInOrder(layout, inProp, outs);
  }

  /** An output that matches no case is still registered, with an empty generator argument. */
  lemma UnmappedStillRegistered(layout: Layout, inProp: string, outs: seq<string>, i: nat)
    requires i < |outs| && Classifier.OutToGenerator(outs[i]).None?
    ensures Actions(layout, inProp, outs)[i].generator == ""
    ensures Actions(layout, inProp, outs)[i].output == PathForModuleGen(layout, outs[i])
  {
    ActionsInOrder(layout, inProp, outs);
  }

  /** Every named output lands directly under the module's generated-output root. */
  lemma OutputsUnderGenRoot(layout: Layout, inProp: string, outs: seq<string>, i: nat)
    requires i < |outs| && outs[i] != ""
    ensures var out := Actions(layout, inProp, outs)[i].output;
      |layout.genRoot| < |out| && out[..|layout.genRoot| + 1] == layout.genRoot + "/"
  {
    ActionsInOrder(layout, inProp, outs);
    var out := Actions(layout, inProp, outs)[i].output;
    assert out == (layout.genRoot + "/") + outs[i];
  }

  /** The published headers are exactly the outputs of the registered actions, in order. */
  lemma {:induction false} PublishedHeadersMatchActions(layout: Layout, inProp: string, outs: seq<string>)
    ensures forall i :: 0 <= i < |outs| ==> GeneratedPaths(layout, outs)[i] == Actions(layout, inProp, outs)[i].output
  {
    ActionsInOrder(layout, inProp, outs);
    if outs != [] {
      PublishedHeadersMatchActions(layout, inProp, outs[..|outs| - 1]);
    }
  }

  /** Outputs that are all recognised leave the error list empty. */
  lemma {:induction false} AllRecognisedNoErrors(outs: seq<string>)
    requires forall i :: 0 <= i < |outs| ==> Classifier.OutToGenerator(outs[i]).Some?
    ensures Errors(outs) == []
  {
    if outs != [] {
      var init := outs[..|outs| - 1];
      forall i | 0 <= i < |init| ensures Classifier.OutToGenerator(init[i]).Some? {
        assert init[i] == outs[i];
      }
      AllRecognisedNoErrors(init);
    }
  }

  /** An unrecognised output leaves the error list non-empty. */
  lemma {:induction false} UnrecognisedReported(outs: seq<string>)
    requires exists j :: 0 <= j < |outs| && Classifier.OutToGenerator(outs[j]).None?
    ensures Errors(outs) != []
  {
    var j :| 0 <= j < |outs| && Classifier.OutToGenerator(outs[j]).None?;
    var init, last := outs[..|outs| - 1], outs[|outs| - 1];
    assert |Errors(outs)| == |Errors(init)| + |ErrorFor(last)|;
    if j < |init| {
      assert Classifier.OutToGenerator(init[j]).None?;
      UnrecognisedReported(init);
    } else {
      assert ErrorFor(last) == [UnmappedOutput(Paths.Base(last))];
    }
  }

  /** Registration reports no error exactly when every requested output is recognised. */
  lemma NoErrorsIffAllRecognised(outs: seq<string>)
    ensures Errors(outs) == [] <==> forall i :: 0 <= i < |outs| ==> Classifier.OutToGenerator(outs[i]).Some?
  {
    if forall i :: 0 <= i < |outs| ==> Classifier.OutToGenerator(outs[i]).Some? {
      AllRecognisedNoErrors(outs);
    } else {
      UnrecognisedReported(outs);
    }
  }

  /** Each reported error names the base name of a requested output that no case maps. */
  lemma {:induction false} ErrorsNameUnmappedOutputs(outs: seq<string>)
    ensures forall k :: 0 <= k < |Errors(outs)| ==>
      exists i :: 0 <= i < |outs| && Classifier.OutToGenerator(outs[i]).None? && Errors(outs)[k] == UnmappedOutput(Paths.Base(outs[i]))
  {
    if outs != [] {
      var init, last := outs[..|outs| - 1], outs[|outs| - 1];
      ErrorsNameUnmappedOutputs(init);
      var es := Errors(outs);
      assert es == Errors(init) + ErrorFor(last);
      forall k | 0 <= k < |Errors(outs)|
        ensures exists i :: 0 <= i < |outs| && Classifier.OutToGenerator(outs[i]).None? && Errors(outs)[k] == UnmappedOutput(Paths.Base(outs[i]))
      {
        if k < |Errors(init)| {
          assert es[k] == Errors(init)[k];
          var i :| 0 <= i < |init| && Classifier.OutToGenerator(init[i]).None? && Errors(init)[k] == UnmappedOutput(Paths.Base(init[i]));
          assert outs[i] == init[i];
        } else {
          assert es[k] == ErrorFor(last)[0];
        }
      }
    } else {
      assert |Errors(outs)| == 0;
    }
  }

  /** The errors reported for the first n outputs are the start of those reported for all of them. */
  lemma {:induction false} ErrorsOfPrefix(outs: seq<string>, n: nat)
    requires n <= |outs|
    ensures Errors(outs[..n]) <= Errors(outs)
    decreases |outs|
  {
    if n < |outs| {
      var init := outs[..|outs| - 1];
      assert init[..n] == outs[..n];
      ErrorsOfPrefix(init, n);
      assert Errors(outs) == Errors(init) + ErrorFor(outs[|outs| - 1]);
    } else {
      assert outs[..n] == outs;
    }
  }

  /**
   * Every unrecognised output gets an error of its own naming its base name: it
   * sits right after the errors of the outputs before it.
   */
  lemma EveryUnmappedReported(outs: seq<string>, i: nat)
    requires i < |outs| && Classifier.OutToGenerator(outs[i]).None?
    ensures |Errors(outs[..i])| < |Errors(outs)|
    ensures Errors(outs)[|Errors(outs[..i])|] == UnmappedOutput(Paths.Base(outs[i]))
  {
    assert outs[..i + 1][..i] == outs[..i];
    assert Errors(outs[..i + 1]) == Errors(outs[..i]) + [UnmappedOutput(Paths.Base(outs[i]))];
    ErrorsOfPrefix(outs, i + 1);
  }

  /** Errors of different unrecognised outputs sit at different places, in the outputs' order. */
  lemma UnmappedErrorsInOrder(outs: seq<string>, i: nat, j: nat)
    requires i < j <= |outs| && Classifier.OutToGenerator(outs[i]).None?
    ensures |Errors(outs[..i])| < |Errors(outs[..j])|
  {
    var pre := outs[..j];
    assert pre[..i] == outs[..i] && pre[i] == outs[i];
    EveryUnmappedReported(pre, i);
  }

  /** The include argument: the four "-I <dir>" flags, in search order, separated by single spaces. */
  lemma IncludeArgument(layout: Layout, input: string)
    ensures JoinedIncludes(layout, input) ==
      "-I " + layout.moduleDir + " " + "-I " + LlvmInclude + " " + "-I " + LlvmTargetInclude + " " + "-I " + Paths.Dir(input)
  {
    Strings.JoinFour("-I " + layout.moduleDir, "-I " + LlvmInclude, "-I " + LlvmTargetInclude, "-I " + Paths.Dir(input), " ");
  }

  /**
   * When the input file sits directly in the module's directory, the last search
   * root is the module's directory again.
   */
  lemma InputDirectoryIsModuleDir(layout: Layout, inProp: string)
    requires layout.moduleDir != "" && layout.moduleDir[|layout.moduleDir| - 1] != '/'
    requires '/' !in inProp
    ensures Includes(layout, PathForModuleSrc(layout, inProp))[3] == Includes(layout, PathForModuleSrc(layout, inProp))[0]
  {
    Paths.DirOfJoin(layout.moduleDir, inProp);
  }
}
