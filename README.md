# nuxt-can `v-can` / `v-cannot` transformer, modelled in Dafny

nuxt-can rewrites Vue single-file components at build time. It turns permission directives in the `<template>` into plain `v-if` conditions:

- `v-can="E"` becomes `v-if="E"`.
- Beside a `v-if="I"`, that `v-if` becomes `v-if="(E) && (I)"` and the `v-can` attribute is erased.
- A bare `v-cannot` on the element that immediately follows a `v-can` sibling becomes `v-if="!(E)"`. Blank text and comments between the two are allowed.

Misuse stops the build with a `NuxtCanError`. The message carries a `file:line:column` position.

This project models the transformer's core in four parts:

- **Patch collector** (`patches.dfy`, module `Patches`).
  - It walks the template tree and emits `(start, end, text)` patches.
  - A two-state machine (nothing pending / `v-can` expression pending) runs over each sibling list.
  - The source appends to a context object. Here that object is the class `WalkerContext`, and the methods `WalkChildren`, `HandleElement`, `TransformCanDirective`, `TransformCannotDirective` and `CollectCanPatches` update its `patches` field.
  - Each method is proved equal to a pure specification function: `SiblingPatches`, `ElementPatches`, `CanPatches`, `CannotPatches` and `CollectedPatches`.
  - `collector_properties.dfy` proves, on those functions, what the collector promises.
- **Patch applier** (`patcher.dfy`, module `Patcher`).
  - It copies the patches and stable-sorts them by descending start, then folds string splices over the source.
  - Proved: sorting properties, offset safety for non-overlapping patches, the length of the result, independence from input order, and the untouched prefix.
- **Entry point** (`transform_can.dfy`, module `TransformCan`).
  - It applies the skip rules, runs the collector with offsets shifted by the template start, applies the patches and assembles the result with its source map.
- **Errors** (`errors.dfy`, module `Errors`).
  - It builds the error name and message and the position string, and strips the working directory from the file name.

Supporting modules:

- `js_string.dfy` holds the JavaScript string operations the code relies on: `trim` with the ECMAScript whitespace set, clamping `slice`, `startsWith`, `endsWith`, `includes`, and decimal printing.
- `template_ast.dfy` holds the template tree as the Vue template parser reports it.
- `types.dfy` holds the patch record.
- `wrappers.dfy` holds `Option` and `Result`.

A thrown `NuxtCanError` is modelled as the `Err` value of a `Result`. The working directory is passed as a parameter `cwd`. The span of the template content (the text between the `<template>` tags) and the parsed template tree are inputs, not computed.

## Model

| member | source | states |
|---|---|---|
| JsString.Trim | src/runtime/transformer/patches.ts:122 | `trim()` removes exactly a whitespace prefix and a whitespace suffix. The result is empty iff the input is blank, and is otherwise bounded by non-whitespace characters. |
| JsString.Slice | src/runtime/transformer/transform-can.ts:23 | `slice(from, to)` clamps both ends to the length. It is the exact infix when both are in range, the suffix from `from` when only `to` is past the end, and empty when `to <= from` or `from` is at or past the end. |
| JsString.ContainsPrefix | src/runtime/transformer/transform-can.ts:25 | If `s` includes `t` and `u` is a prefix of `t`, then `s` includes `u`. |
| Errors.FilenameRelativeToCwd | src/runtime/transformer/errors.ts:26-30 | A name without `cwd` as a textual prefix is returned unchanged. Otherwise the name equals `cwd` + result (with the result not starting with `/`), or `cwd` + `/` + result: at most one leading `/` is dropped (none when the remainder does not start with `/`). |
| Errors.RelativeIsTextual | src/runtime/transformer/errors.ts:27-28 | The prefix test is textual: `/a/b` strips from `/a/bc/x` to `c/x`, `/a/b/c.vue` gives `c.vue`, and `/other/c.vue` is kept. |
| Errors.RaiseDirectiveError | src/runtime/transformer/errors.ts:7-14 | The error's name is `NuxtCanError`. Its message is `[nuxt-can] ` + message + ` (` + position + `)`, where the position uses the relative file name or `<template>`. |
| Errors.PositionRoundTrip | src/runtime/transformer/errors.ts:12 | The position `name:line:column` always splits back into the name and the directive's start line and start column, whatever the name contains. |
| Patcher.SortDesc | src/runtime/transformer/patcher.ts:4-5 | The sorted copy is in non-increasing start order and is a permutation of the caller's list. |
| Patcher.SortDescStable | src/runtime/transformer/patcher.ts:5 | Patches with equal starts keep their original relative order, as the stable array sort does. |
| Patcher.ApplyPatches | src/runtime/transformer/patcher.ts:3-7 | `applyPatches`; its contract is stated by `Patcher.ApplyPatchesEmpty`, `Patcher.ApplyPatchesSingle`, `Patcher.ApplyPatchesSpliced`, `Patcher.ApplyPatchesLength`, `Patcher.ApplyPatchesOrderIndependent` and `Patcher.ApplyPatchesKeepsPrefix`. |
| Patcher.ApplyPatchesEmpty | src/runtime/transformer/patcher.ts:6 | No patches leave the source unchanged. |
| Patcher.ApplyPatchesSingle | src/runtime/transformer/patcher.ts:6 | One in-range patch gives `source[..start] + text + source[end..]`. |
| Patcher.ApplyPatchesSpliced | src/runtime/transformer/patcher.ts:4-6 | For pairwise non-overlapping in-range patches with distinct starts, each span is replaced by its text and everything outside the spans is kept in order (`Spliced`). |
| Patcher.ApplyPatchesLength | src/runtime/transformer/patcher.ts:4-6 | For such patches the result length is `|source|` plus the sum of `|text| - (end - start)`. |
| Patcher.ApplyPatchesOrderIndependent | src/runtime/transformer/patcher.ts:4-6 | Two lists with the same patches (as multisets) and distinct starts give the same result. |
| Patcher.ApplyPatchesKeepsPrefix | src/runtime/transformer/patcher.ts:4-6 | Text before the smallest patch start is never changed, even for overlapping patches. |
| Patches.LastDirective | src/runtime/transformer/patches.ts:74-79 | The scan finds a directive of the given name iff one exists, and the one found is among the props with that name. |
| Patches.LastDirectiveIsLast | src/runtime/transformer/patches.ts:74-79 | No directive of the same name follows the one the scan keeps: the last one wins. |
| Patches.IfExpression | src/runtime/transformer/patches.ts:128 | The `v-if` condition is `true` when blank and its trimmed text otherwise. |
| Patches.WalkerContext.constructor | src/runtime/transformer/patches.ts:24-28 | The context starts with the given template start and file name and an empty patch list. |
| Patches.TransformCanDirective | src/runtime/transformer/patches.ts:111-151 | The context's patch list grows by exactly the patches `CanPatches` specifies and the trimmed expression is returned. On failure the error is returned and nothing is appended. |
| Patches.TransformCannotDirective | src/runtime/transformer/patches.ts:153-186 | The patch list grows by exactly `CannotPatches`' one negation patch, or the first failing check's error is returned with nothing appended. |
| Patches.HandleElement | src/runtime/transformer/patches.ts:69-109 | The loop over props finds the last `can`, `cannot` and `if` directives. The element's patches are appended and the new pending expression is returned, as `ElementPatches` specifies. |
| Patches.WalkChildren | src/runtime/transformer/patches.ts:35-67 | The loop over siblings with the reassigned pending marker and the recursion into children append exactly `SiblingPatches(children, None)`, or report its error. |
| Patches.CollectCanPatches | src/runtime/transformer/patches.ts:23-33 | The result is the specification `CollectedPatches`: the walk of the root's children from a fresh context. |
| CollectorProperties.BothDirectivesFail | src/runtime/transformer/patches.ts:81-83 | An element with both `v-can` and `v-cannot` fails at the `v-cannot` location with the fixed message, before any patch for it. |
| CollectorProperties.PlainElement | src/runtime/transformer/patches.ts:85-108 | An element with neither directive emits nothing and leaves nothing pending. |
| CollectorProperties.CanRejected | src/runtime/transformer/patches.ts:118-125 | `v-can` fails iff its expression is missing, not simple, or blank after trimming, each with its own message. |
| CollectorProperties.CanWithoutSimpleIf | src/runtime/transformer/patches.ts:142-148 | Without a simple `v-if`, there is exactly one patch over the `v-can` span with text `v-if="E"` (`E` trimmed), and `E` becomes pending. |
| CollectorProperties.CanWithSimpleIf | src/runtime/transformer/patches.ts:127-140 | With a simple `v-if`, there are exactly two patches: the `v-if` span becomes `v-if="(E) && (I)"`, then the `v-can` span is erased. |
| CollectorProperties.CannotChecks | src/runtime/transformer/patches.ts:161-185 | `v-cannot` checks expression, argument, modifiers, `v-if`, then a missing pending `v-can`, in that order. Otherwise it emits one patch `v-if="!(E)"` over its own span and clears the pending marker. |
| CollectorProperties.TransparentSiblingsKeepPending | src/runtime/transformer/patches.ts:44-53 | Whitespace-only text and comments leave the walk of the rest of the list, and the pending marker, unchanged. |
| CollectorProperties.ClearingSibling | src/runtime/transformer/patches.ts:39-58 | Non-blank text, non-nodes and other node kinds clear the pending marker. |
| CollectorProperties.CannotFirstInListFails | src/runtime/transformer/patches.ts:177-179 | A bare `v-cannot` preceded only by blank text and comments in its list fails with the adjacency message. |
| CollectorProperties.CanThenCannot | src/runtime/transformer/patches.ts:60-65 | For `v-can` element, blanks, bare `v-cannot` element: the `v-can` patches and its children's patches come first, then the negation of its expression and the `v-cannot` element's children's patches. The rest of the list starts with nothing pending. |
| CollectorProperties.OneCannotPerCan | src/runtime/transformer/patches.ts:93 | A second bare `v-cannot` after the one that consumed the `v-can` fails. |
| CollectorProperties.NestedCannotFails | src/runtime/transformer/patches.ts:36 | Every child list starts with nothing pending, so a `v-cannot` at the head of any element's children fails. |
| CollectorProperties.OwnPatchesFirst | src/runtime/transformer/patches.ts:60-65 | An element's own patches are a prefix of the patches of the list it heads: pre-order. |
| CollectorProperties.ElementPatchesFromProps | src/runtime/transformer/patches.ts:130-147 | Every patch of an element is a span of one of its own directives, moved by the template start. |
| CollectorProperties.PatchesFromDirectives | src/runtime/transformer/patches.ts:130-185 | Every collected patch is the span of some directive of the tree, moved by the template start. |
| CollectorProperties.PatchesWithinTemplate | src/runtime/transformer/patches.ts:131-132 | When directive spans lie within a template text of length `len`, every patch lies within `[templateStart, templateStart + len]`. |
| CollectorProperties.PatchSources | src/runtime/transformer/patches.ts:35-109 | Each collected patch covers the span of its own directive occurrence of the tree: the covered directives, counted with repetition, are at most those of the tree, so no occurrence yields two patches. |
| CollectorProperties.CollectedDisjoint | src/runtime/transformer/patches.ts:23-33 | When the parser's directive spans are non-empty, lie in a template text of length `len` and do not overlap one another, the collected patches have distinct starts, lie in `[templateStart, templateStart + len]` and do not overlap. |
| CollectorProperties.PatchesAfterTemplateStart | src/runtime/transformer/patches.ts:131-132 | For every tree, every collected patch starts at or after the template content's start. |
| TransformCan.TransformCan | src/runtime/transformer/transform-can.ts:14-51 | `transformCan`; its contract is stated by `TransformCan.DeclinesExactly`, `TransformCan.FailsExactlyWithCollector`, `TransformCan.OutputIsPatchedModule`, `TransformCan.OutsideTemplateUnchanged` and `TransformCan.OutputLength`. |
| TransformCan.CannotMarkerImpliesCanMarker | src/runtime/transformer/transform-can.ts:25 | A template containing `v-cannot` contains `v-can`, so the second marker test is subsumed. |
| TransformCan.DeclinesExactly | src/runtime/transformer/transform-can.ts:15-30 | The result is `null` iff the id does not end in `.vue`, or there is no template, or the template text lacks `v-can`, or the collector finds no patches. |
| TransformCan.FailsExactlyWithCollector | src/runtime/transformer/transform-can.ts:29 | Given the parsed tree, the transform fails iff it reaches the collector and the collector fails, and then with the collector's error unchanged. The template parser's own exception is not modelled (see "## Left out"). |
| TransformCan.OutputIsPatchedModule | src/runtime/transformer/transform-can.ts:32-50 | A result's code is the whole module with the collector's non-empty patch list applied. The map is version 3 with sources `[id]`, no names, empty mappings and the new code as its only source content. |
| TransformCan.OutsideTemplateUnchanged | src/runtime/transformer/transform-can.ts:21-32 | Text before the template content is unchanged, whatever the directive spans. When those spans are non-empty, lie in the template content and do not overlap, the text after the template content is unchanged too. |
| TransformCan.OutputLength | src/runtime/transformer/transform-can.ts:32 | When the directive spans lie in the template text, are non-empty and do not overlap, the new code's length is the old one plus the net growth of the patches. |

## Left out

- Parsing: the single-file-component parser and the template parser are foreign code.
  - Their results (the offsets of the template content between the `<template>` tags and the template tree with per-directive offsets, lines and columns) are inputs.
  - Nodes that are not nodes at all (`isTemplateChild` false) are the `NotANode` case of the tree.
- TransformCan.FailsExactlyWithCollector: the exception `parseTemplate` throws on malformed template markup (transform-can.ts:28) is not modelled. In the program, the transform can also fail with the template compiler's error after the marker test passes. The model takes the parsed tree as an input, so its only failures are the collector's.
- The `reporter` option prints a diff to the console and does not affect the result. `TransformCan.TransformCan` has no such parameter, so its result is independent of it by construction.
- Stack rewriting in `raiseDirectiveError`: the `stack` text comes from the JavaScript engine. `process.cwd()` is the parameter `cwd`.
- Throwing: `raiseDirectiveError` never returns. Every caller here returns its value as an `Err` at once.
  - The patches already pushed before a failure are not observable, because the exception discards them.
  - `Patches.WalkChildren` therefore states nothing about the list on failure beyond its growing.
- Characters: a `char` stands for one UTF-16 code unit. Surrogate pairs and code-point semantics of the JavaScript string operations are not modelled.
- Overlap: the collector emits at most one patch per directive occurrence, over that directive's span (`CollectorProperties.CollectedDisjoint`). Patches therefore do not overlap whenever the parser's directive spans do not (the converse does not hold: directives that yield no patch may overlap freely).
  - TransformCan.OutsideTemplateUnchanged: the statement about text after the template holds for parser spans that are non-empty and do not overlap (`CollectorProperties.SpansApart`). The tree is an input, so this is a hypothesis about the parser, not proved.
  - TransformCan.OutputLength: holds under the same hypothesis about the parser's spans.
- Behaviours of a later revision of the transformer, absent from this code, are not modelled:
  - `__can__(...)` call generation;
  - guard-last merge order;
  - validation of the `can.` root;
  - `v-else-if`/`v-else` chain mirroring;
  - accepting a `v-cannot` with its own expression.
- Plugin registration, the runtime permission proxy and the configuration files lie outside the transformer.
