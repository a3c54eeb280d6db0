/**
 * Diagnostics of the transformer: the `NuxtCanError` value a directive
 * failure produces, with its message and `file:line:column` position.
 * The working directory (`process.cwd()` in the source) is a parameter.
 */
module Errors {
  import opened Wrappers
  import opened JsString
  import opened TemplateAst

  const ErrorName := "NuxtCanError"
  const Tag := "[nuxt-can] "
  const Placeholder := "<template>"

  datatype NuxtCanError = NuxtCanError(name: string, message: string)

  /**
   * The file name relative to `cwd` when `cwd` is a textual prefix of it,
   * minus at most one separating `/`; otherwise the name unchanged.
   */
  function FilenameRelativeToCwd(filename: string, cwd: string): (r: string)
    ensures !StartsWith(filename, cwd) ==> r == filename
    ensures StartsWith(filename, cwd) ==>
              (filename == cwd + r && (r == [] || r[0] != '/')) || filename == cwd + "/" + r
  {
    if StartsWith(filename, cwd) then
      var rest := filename[|cwd|..];
      assert filename == cwd + rest;
      if |rest| > 0 && rest[0] == '/' then
        assert rest == "/" + rest[1..];
        rest[1..]
      else rest
    else filename
  }

  /** The name shown in a position: the relative file name, or `<template>` when there is none. */
  function DisplayName(filename: Option<string>, cwd: string): string {
    if filename.Some? && filename.value != "" then FilenameRelativeToCwd(filename.value, cwd)
    else Placeholder
  }

  /** `name:line:column` of the start of a location. */
  function FormatPosition(name: string, loc: SourceLocation): string {
    name + ":" + NatToString(loc.start.line) + ":" + NatToString(loc.start.column)
  }

  /**
   * `raiseDirectiveError`: the error it throws, as a value. Every caller
   * returns it as a failure, so the call never yields a normal result.
   */
  function RaiseDirectiveError(filename: Option<string>, cwd: string, loc: SourceLocation, message: string)
    : (e: NuxtCanError)
    ensures e.name == ErrorName
    ensures e.message == Tag + message + " (" + FormatPosition(DisplayName(filename, cwd), loc) + ")"
  {
    var position := FormatPosition(DisplayName(filename, cwd), loc);
    NuxtCanError(ErrorName, Tag + message + " (" + position + ")")
  }

  /** Splits `s` at its last occurrence of `c`. */
  function SplitAtLast(s: string, c: char): Option<(string, string)>
    decreases |s|
  {
    if s == [] then None
    else if s[|s| - 1] == c then Some((s[..|s| - 1], ""))
    else match SplitAtLast(s[..|s| - 1], c)
      case None => None
      case Some(parts) => Some((parts.0, parts.1 + [s[|s| - 1]]))
  }

  lemma {:induction false} SplitAtLastJoin(before: string, c: char, after: string)
    requires forall i | 0 <= i < |after| :: after[i] != c
    ensures SplitAtLast(before + [c] + after, c) == Some((before, after))
    decreases |after|
  {
    var s := before + [c] + after;
    if after != [] {
      var last := after[|after| - 1];
      assert s[..|s| - 1] == before + [c] + after[..|after| - 1];
      SplitAtLastJoin(before, c, after[..|after| - 1]);
      assert after == after[..|after| - 1] + [last];
    } else {
      assert s[..|s| - 1] == before;
    }
  }

  /** Reads `name:line:column` back, splitting at the last two colons. */
  function ParsePosition(p: string): Option<(string, nat, nat)> {
    match SplitAtLast(p, ':')
    case None => None
    case Some((rest, column)) =>
      match SplitAtLast(rest, ':')
      case None => None
      case Some((name, line)) =>
        if IsDigits(line) && IsDigits(column) then Some((name, ParseDigits(line), ParseDigits(column)))
        else None
  }

  /** A position always reads back as the name, line and column it was built from, whatever the name holds. */
  lemma PositionRoundTrip(name: string, loc: SourceLocation)
    ensures ParsePosition(FormatPosition(name, loc)) == Some((name, loc.start.line, loc.start.column))
  {
    var line := NatToString(loc.start.line);
    var column := NatToString(loc.start.column);
    assert FormatPosition(name, loc) == (name + ":" + line) + [':'] + column;
    SplitAtLastJoin(name + ":" + line, ':', column);
    assert name + ":" + line == name + [':'] + line;
    SplitAtLastJoin(name, ':', line);
    ParseNatToString(loc.start.line);
    ParseNatToString(loc.start.column);
  }

  /** The `/a/b` prefix is matched as text, so it also strips from `/a/bc/x`. */
  lemma RelativeIsTextual()
    ensures FilenameRelativeToCwd("/a/bc/x", "/a/b") == "c/x"
    ensures FilenameRelativeToCwd("/a/b/c.vue", "/a/b") == "c.vue"
    ensures FilenameRelativeToCwd("/other/c.vue", "/a/b") == "/other/c.vue"
  {
    assert "/a/b" <= "/a/bc/x";
    assert "/a/b" <= "/a/b/c.vue";
    assert !("/a/b" <= "/other/c.vue") by { assert "/other/c.vue"[1] != "/a/b"[1]; }
  }
}
