// The entry point of the build-time transform: decide whether a module is a
// Vue single-file component whose template mentions `v-can`/`v-cannot`, collect
// the patches over the parsed template and splice them into the module code.
// The two parsers are foreign code: the template content span they find and the tree
// of the template text are inputs here.

module TransformCan {
  import opened Wrappers
  import opened JsString
  import opened TemplateAst
  import opened Types
  import opened Errors
  import opened Patcher
  import opened Patches
  import CollectorProperties

  /**
   * The span of the `<template>` block's content (the text between its tags)
   * inside the module code, as the single-file-component parser reports it.
   */
  datatype TemplateBlock = TemplateBlock(start: nat, end: nat)

  /** The version-3 source map the transform returns next to the new code. */
  datatype SourceMap = SourceMap(version: nat, sources: seq<string>, names: seq<string>,
                                 mappings: string, sourcesContent: seq<string>)

  datatype TransformOutput = TransformOutput(code: string, sourceMap: SourceMap)

  const VueSuffix := ".vue"
  const CanMarker := "v-can"
  const CannotMarker := "v-cannot"

  /** The template text handed to the template parser (`code.slice(start, end)`). */
  function TemplateText(code: string, tpl: TemplateBlock): string {
    Slice(code, tpl.start, tpl.end)
  }

  /** The patches the collector produces for a module whose template is `tpl`. */
  function ModulePatches(id: string, tpl: TemplateBlock, ast: Root, cwd: string): Result<seq<Patch>, NuxtCanError> {
    CollectedPatches(ast, tpl.start, Some(id), cwd)
  }

  /**
   * `transformCan`: `Ok(None)` stands for the source's `null` (the module is
   * left as it is), `Err` for the error the collector raises.
   */
  function TransformCan(code: string, id: string, template: Option<TemplateBlock>, ast: Root, cwd: string)
    : Result<Option<TransformOutput>, NuxtCanError>
  {
    if !EndsWith(id, VueSuffix) then Ok(None)
    else if template.None? then Ok(None)
    else
      var before := TemplateText(code, template.value);
      if !Contains(before, CanMarker) && !Contains(before, CannotMarker) then Ok(None)
      else
        match ModulePatches(id, template.value, ast, cwd)
        case Err(e) => Err(e)
        case Ok(patches) =>
          if |patches| == 0 then Ok(None)
          else
            var next := ApplyPatches(code, patches);
            Ok(Some(TransformOutput(next, SourceMap(3, [id], [], "", [next]))))
  }

  /** A template that mentions `v-cannot` mentions `v-can`, so the second half of the source's marker test adds nothing. */
  lemma CannotMarkerImpliesCanMarker(s: string)
    ensures Contains(s, CannotMarker) ==> Contains(s, CanMarker)
  {
    if Contains(s, CannotMarker) {
      assert CannotMarker[..|CanMarker|] == CanMarker;
      ContainsPrefix(s, CannotMarker, CanMarker);
    }
  }

  /**
   * When the module is left alone: it is not a `.vue` file, it has no
   * template, the template never mentions `v-can`, or the collector finds
   * nothing to patch.
   */
  lemma DeclinesExactly(code: string, id: string, template: Option<TemplateBlock>, ast: Root, cwd: string)
    ensures TransformCan(code, id, template, ast, cwd) == Ok(None)
        <==> (!EndsWith(id, VueSuffix)
              || template.None?
              || !Contains(TemplateText(code, template.value), CanMarker)
              || ModulePatches(id, template.value, ast, cwd) == Ok([]))
  {
    if template.Some? {
      CannotMarkerImpliesCanMarker(TemplateText(code, template.value));
    }
  }

  /** The transform fails exactly when it reaches the collector and the collector fails, and with the collector's error. */
  lemma FailsExactlyWithCollector(code: string, id: string, template: Option<TemplateBlock>, ast: Root, cwd: string)
    ensures TransformCan(code, id, template, ast, cwd).Err?
        <==> (EndsWith(id, VueSuffix)
              && template.Some?
              && Contains(TemplateText(code, template.value), CanMarker)
              && ModulePatches(id, template.value, ast, cwd).Err?)
    ensures TransformCan(code, id, template, ast, cwd).Err?
        ==> TransformCan(code, id, template, ast, cwd).error == ModulePatches(id, template.value, ast, cwd).error
  {
    if template.Some? {
      CannotMarkerImpliesCanMarker(TemplateText(code, template.value));
    }
  }

  /**
   * A transformed module: its code is the module code with the collector's
   * non-empty patch list applied, and the source map names the module and
   * carries the new code as its only source content.
   */
  lemma OutputIsPatchedModule(code: string, id: string, template: Option<TemplateBlock>, ast: Root, cwd: string)
    requires TransformCan(code, id, template, ast, cwd).Ok?
    requires TransformCan(code, id, template, ast, cwd).value.Some?
    ensures EndsWith(id, VueSuffix) && template.Some?
    ensures Contains(TemplateText(code, template.value), CanMarker)
    ensures ModulePatches(id, template.value, ast, cwd).Ok?
    ensures |ModulePatches(id, template.value, ast, cwd).value| > 0
    ensures var out := TransformCan(code, id, template, ast, cwd).value.value;
            out.code == ApplyPatches(code, ModulePatches(id, template.value, ast, cwd).value)
            && out.sourceMap.version == 3 && out.sourceMap.sources == [id] && out.sourceMap.names == []
            && out.sourceMap.mappings == "" && out.sourceMap.sourcesContent == [out.code]
  {
    CannotMarkerImpliesCanMarker(TemplateText(code, template.value));
  }

  /**
   * The text before the template content is untouched; the text after it is
   * untouched too when the directive spans the parser reports are non-empty,
   * lie inside the template content and do not overlap.
   */
  lemma OutsideTemplateUnchanged(code: string, id: string, tpl: TemplateBlock, ast: Root, cwd: string)
    requires TransformCan(code, id, Some(tpl), ast, cwd).Ok?
    requires TransformCan(code, id, Some(tpl), ast, cwd).value.Some?
    requires tpl.start <= tpl.end <= |code|
    ensures var out := TransformCan(code, id, Some(tpl), ast, cwd).value.value;
            |out.code| >= tpl.start && out.code[..tpl.start] == code[..tpl.start]
    ensures CollectorProperties.SpansApart(Directives(ast.children), tpl.end - tpl.start) ==>
            var out := TransformCan(code, id, Some(tpl), ast, cwd).value.value;
            |out.code| >= |code| - tpl.end && out.code[|out.code| - (|code| - tpl.end)..] == code[tpl.end..]
  {
    OutputIsPatchedModule(code, id, Some(tpl), ast, cwd);
    var ps := ModulePatches(id, tpl, ast, cwd).value;
    var len := tpl.end - tpl.start;
    CollectorProperties.PatchesAfterTemplateStart(ast, tpl.start, Some(id), cwd);
    ApplyPatchesKeepsPrefix(code, ps, tpl.start);
    if CollectorProperties.SpansApart(Directives(ast.children), len) {
      CollectorProperties.CollectedDisjoint(ast, tpl.start, Some(id), cwd, len);
      assert Disjoint(ps, tpl.end);
      SortDescChained(ps, tpl.end);
      ApplyPatchesSpliced(code, ps);
      SplicedKeepsSuffix(code, SortDesc(ps), tpl.end);
    }
  }

  /**
   * The new code's length is the old one plus the net growth of the patches,
   * when the parser's directive spans lie in the template, are non-empty and
   * do not overlap.
   */
  lemma OutputLength(code: string, id: string, tpl: TemplateBlock, ast: Root, cwd: string)
    requires TransformCan(code, id, Some(tpl), ast, cwd).Ok?
    requires TransformCan(code, id, Some(tpl), ast, cwd).value.Some?
    requires tpl.start <= tpl.end <= |code|
    requires CollectorProperties.SpansApart(Directives(ast.children), tpl.end - tpl.start)
    ensures |TransformCan(code, id, Some(tpl), ast, cwd).value.value.code|
            == |code| + Delta(ModulePatches(id, tpl, ast, cwd).value)
  {
    OutputIsPatchedModule(code, id, Some(tpl), ast, cwd);
    var ps := ModulePatches(id, tpl, ast, cwd).value;
    CollectorProperties.CollectedDisjoint(ast, tpl.start, Some(id), cwd, tpl.end - tpl.start);
    assert Disjoint(ps, |code|);
    ApplyPatchesLength(code, ps);
  }
}
