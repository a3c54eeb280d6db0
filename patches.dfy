/**
 * `collectCanPatches`: walks the template tree and turns each `v-can` and
 * `v-cannot` directive into text patches.
 *
 * - `v-can="E"` becomes `v-if="E"`;
 * - next to a `v-if="I"` with a simple expression, the `v-if` becomes
 *   `v-if="(E) && (I)"` and the `v-can` span is erased;
 * - a bare `v-cannot` becomes `v-if="!(E)"`, where `E` is the `v-can` of the
 *   immediately preceding sibling (blank text and comments in between are
 *   transparent).
 *
 * The pure functions `CanPatches`, `CannotPatches`, `ElementPatches`,
 * `SiblingPatches` and `CollectedPatches` specify the walk; the methods on a
 * `WalkerContext` carry it out the way the source does, appending to the
 * context's patch list, and are proved to agree with them.
 */
module Patches {
  import opened Wrappers
  import opened JsString
  import opened TemplateAst
  import opened Types
  import opened Errors

  const MsgCanAndCannot := "`v-can` and `v-cannot` cannot be used on the same element."
  const MsgCanStatic := "`v-can` expects a static expression (for example `v-can=\"can.x.y\"`)."
  const MsgCanRequired := "`v-can` requires a valid permission expression such as `can.employee.view`."
  const MsgCannotExpression := "`v-cannot` must not carry an expression (use `v-cannot` by itself)."
  const MsgCannotArgument := "`v-cannot` does not accept arguments."
  const MsgCannotModifiers := "`v-cannot` does not accept modifiers."
  const MsgCannotWithIf := "`v-cannot` cannot be combined with `v-if`; remove the extra condition."
  const MsgCannotAdjacent := "`v-cannot` must immediately follow its `v-can`, and there can be only one `v-cannot` per `v-can` block."

  /** The fixed part of the walker context: the template's offset in the file, the file name and the working directory. */
  datatype Env = Env(templateStart: nat, filename: Option<string>, cwd: string)

  /** What one element leaves behind: its patches and the pending `v-can` expression for the next sibling. */
  datatype Handled = Handled(patches: seq<Patch>, pending: Option<string>)

  /** What a `v-can` directive produces: its patches and its trimmed expression. */
  datatype CanOutcome = CanOutcome(patches: seq<Patch>, expression: string)

  function Raise<T>(env: Env, loc: SourceLocation, message: string): Result<T, NuxtCanError> {
    Err(RaiseDirectiveError(env.filename, env.cwd, loc, message))
  }

  /** A patch over a directive's span, moved from template offsets to file offsets. */
  function Shifted(env: Env, d: Directive, text: string): Patch {
    Patch(env.templateStart + d.loc.start.offset, env.templateStart + d.loc.end.offset, text)
  }

  /** `v-if="E"`. */
  function GuardText(canExpression: string): string {
    "v-if=\"" + canExpression + "\""
  }

  /** `v-if="(E) && (I)"`: the guard first, then the original condition. */
  function MergedText(canExpression: string, ifExpression: string): string {
    "v-if=\"(" + canExpression + ") && (" + ifExpression + ")\""
  }

  /** `v-if="!(E)"`. */
  function NegatedText(canExpression: string): string {
    "v-if=\"!(" + canExpression + ")\""
  }

  predicate IsSimple(e: Option<Expression>) {
    e.Some? && e.value.SimpleExpression?
  }

  predicate IsDirectiveNamed(p: Prop, name: string) {
    p.DirectiveProp? && p.directive.name == name
  }

  /** The last directive called `name` among the props, as the scan over `element.props` keeps it. */
  function LastDirective(props: seq<Prop>, name: string): (r: Option<Directive>)
    ensures r.None? <==> forall i | 0 <= i < |props| :: !IsDirectiveNamed(props[i], name)
    ensures r.Some? ==> r.value.name == name && DirectiveProp(r.value) in props
  {
    if props == [] then None
    else if IsDirectiveNamed(props[|props| - 1], name) then Some(props[|props| - 1].directive)
    else
      var r := LastDirective(props[..|props| - 1], name);
      assert forall i | 0 <= i < |props| - 1 :: props[..|props| - 1][i] == props[i];
      r
  }

  /** No directive of that name follows the one `LastDirective` finds. */
  lemma {:induction false} LastDirectiveIsLast(props: seq<Prop>, name: string)
    requires LastDirective(props, name).Some?
    ensures exists i | 0 <= i < |props| :: props[i] == DirectiveProp(LastDirective(props, name).value)
              && forall j | i < j < |props| :: !IsDirectiveNamed(props[j], name)
  {
    var n := |props| - 1;
    if !IsDirectiveNamed(props[n], name) {
      var init := props[..n];
      LastDirectiveIsLast(init, name);
      var i :| 0 <= i < |init| && init[i] == DirectiveProp(LastDirective(init, name).value)
                && forall j | i < j < |init| :: !IsDirectiveNamed(init[j], name);
      assert props[i] == init[i];
      assert forall j | i < j < |props| :: !IsDirectiveNamed(props[j], name) by {
        forall j | i < j < |props| ensures !IsDirectiveNamed(props[j], name) {
          if j < n { assert props[j] == init[j]; }
        }
      }
    }
  }

  /** `(content || 'true').trim() || 'true'`: the trimmed `v-if` condition, `true` when blank. */
  function IfExpression(content: string): (r: string)
    ensures IsBlank(content) ==> r == "true"
    ensures !IsBlank(content) ==> r == Trim(content)
  {
    var written := if content == "" then "true" else content;
    var trimmed := Trim(written);
    if trimmed == "" then "true" else trimmed
  }

  /** `transformCanDirective`. */
  function CanPatches(env: Env, can: Directive, ifDirective: Option<Directive>): Result<CanOutcome, NuxtCanError> {
    if !IsSimple(can.exp) then Raise(env, can.loc, MsgCanStatic)
    else
      var canExpression := Trim(can.exp.value.content);
      if canExpression == "" then Raise(env, can.loc, MsgCanRequired)
      else if ifDirective.Some? && IsSimple(ifDirective.value.exp) then
        var ifExpression := IfExpression(ifDirective.value.exp.value.content);
        Ok(CanOutcome(
          [ Shifted(env, ifDirective.value, MergedText(canExpression, ifExpression)),
            Shifted(env, can, "") ],
          canExpression))
      else
        Ok(CanOutcome([Shifted(env, can, GuardText(canExpression))], canExpression))
  }

  /** `transformCannotDirective`: the checks in the source's order, then the negated pending expression. */
  function CannotPatches(env: Env, directive: Directive, pending: Option<string>, ifDirective: Option<Directive>)
    : Result<seq<Patch>, NuxtCanError>
  {
    if directive.exp.Some? then Raise(env, directive.loc, MsgCannotExpression)
    else if directive.arg.Some? then Raise(env, directive.loc, MsgCannotArgument)
    else if |directive.modifiers| > 0 then Raise(env, directive.loc, MsgCannotModifiers)
    else if ifDirective.Some? then Raise(env, directive.loc, MsgCannotWithIf)
    else if pending.None? then Raise(env, directive.loc, MsgCannotAdjacent)
    else Ok([Shifted(env, directive, NegatedText(pending.value))])
  }

  /** `handleElement`. */
  function ElementPatches(env: Env, props: seq<Prop>, pending: Option<string>): Result<Handled, NuxtCanError> {
    var can := LastDirective(props, "can");
    var cannot := LastDirective(props, "cannot");
    var ifDirective := LastDirective(props, "if");
    if can.Some? && cannot.Some? then Raise(env, cannot.value.loc, MsgCanAndCannot)
    else if cannot.Some? then
      match CannotPatches(env, cannot.value, pending, ifDirective)
      case Err(e) => Err(e)
      case Ok(ps) => Ok(Handled(ps, None))
    else if can.Some? then
      match CanPatches(env, can.value, ifDirective)
      case Err(e) => Err(e)
      case Ok(out) => Ok(Handled(out.patches, Some(out.expression)))
    else Ok(Handled([], None))
  }

  /** The walk of an element's children, which starts without a pending `v-can`. */
  function ChildPatches(env: Env, kids: seq<Node>): Result<seq<Patch>, NuxtCanError>
    decreases kids, 1
  {
    if |kids| > 0 then SiblingPatches(env, kids, None) else Ok([])
  }

  /** The pending `v-can` after a sibling that is not an element: blank text and comments keep it, anything else clears it. */
  function PassOver(node: Node, pending: Option<string>): Option<string>
    requires !node.Element?
  {
    match node
    case Text(content) => if |Trim(content)| > 0 then None else pending
    case Comment(_) => pending
    case _ => None
  }

  /** `walkChildren` from a given pending `v-can`: the patches of a sibling list and its descendants, in pre-order. */
  function SiblingPatches(env: Env, children: seq<Node>, pending: Option<string>): Result<seq<Patch>, NuxtCanError>
    decreases children, 0
  {
    if children == [] then Ok([])
    else if !children[0].Element? then SiblingPatches(env, children[1..], PassOver(children[0], pending))
    else
      match ElementPatches(env, children[0].props, pending)
      case Err(e) => Err(e)
      case Ok(h) =>
        match ChildPatches(env, children[0].children)
        case Err(e) => Err(e)
        case Ok(inner) => Prepend(h.patches + inner, SiblingPatches(env, children[1..], h.pending))
  }

  /** `collectCanPatches`. */
  function CollectedPatches(ast: Root, templateStart: nat, filename: Option<string>, cwd: string)
    : Result<seq<Patch>, NuxtCanError>
  {
    SiblingPatches(Env(templateStart, filename, cwd), ast.children, None)
  }

  /** Patches already emitted, followed by those of a walk that may still fail. */
  function Prepend(done: seq<Patch>, r: Result<seq<Patch>, NuxtCanError>): Result<seq<Patch>, NuxtCanError> {
    match r
    case Ok(ps) => Ok(done + ps)
    case Err(e) => Err(e)
  }

  lemma PrependNothing(r: Result<seq<Patch>, NuxtCanError>)
    ensures Prepend([], r) == r
  {
    if r.Ok? {
      assert [] + r.value == r.value;
    }
  }

  /** The patches after `before`, once a step has appended `own` and `inner` to `before + done`. */
  lemma Regroup(before: seq<Patch>, done: seq<Patch>, own: seq<Patch>, inner: seq<Patch>)
    ensures (before + done + own + inner)[|before|..] == done + (own + inner)
  {
    assert before + done + own + inner == before + (done + (own + inner));
  }

  lemma PrependTwice(a: seq<Patch>, b: seq<Patch>, r: Result<seq<Patch>, NuxtCanError>)
    ensures Prepend(a, Prepend(b, r)) == Prepend(a + b, r)
  {
    if r.Ok? {
      assert a + (b + r.value) == (a + b) + r.value;
    }
  }

  /** One step of the walk over a non-element sibling. */
  lemma PassOverStep(env: Env, children: seq<Node>, i: nat, pending: Option<string>)
    requires i < |children| && !children[i].Element?
    ensures SiblingPatches(env, children[i..], pending)
         == SiblingPatches(env, children[i + 1..], PassOver(children[i], pending))
  {
    assert children[i..][0] == children[i] && children[i..][1..] == children[i + 1..];
  }

  /** A failing element, or failing children of an element, fail the walk from that sibling on. */
  lemma ElementFails(env: Env, children: seq<Node>, i: nat, pending: Option<string>)
    requires i < |children| && children[i].Element?
    ensures var c := children[i];
      ElementPatches(env, c.props, pending).Err? ==>
        SiblingPatches(env, children[i..], pending) == Err(ElementPatches(env, c.props, pending).error)
    ensures var c := children[i];
      ElementPatches(env, c.props, pending).Ok? && ChildPatches(env, c.children).Err? ==>
        SiblingPatches(env, children[i..], pending) == Err(ChildPatches(env, c.children).error)
  {
    assert children[i..][0] == children[i] && children[i..][1..] == children[i + 1..];
  }

  /** One step of the walk over an element sibling, once its own and its children's patches are known. */
  lemma ElementStep(env: Env, children: seq<Node>, i: nat, pending: Option<string>, done: seq<Patch>,
                    own: seq<Patch>, next: Option<string>, inner: seq<Patch>)
    requires i < |children| && children[i].Element?
    requires ElementPatches(env, children[i].props, pending) == Ok(Handled(own, next))
    requires ChildPatches(env, children[i].children) == Ok(inner)
    ensures Prepend(done, SiblingPatches(env, children[i..], pending))
         == Prepend(done + (own + inner), SiblingPatches(env, children[i + 1..], next))
  {
    assert children[i..][0] == children[i] && children[i..][1..] == children[i + 1..];
    PrependTwice(done, own + inner, SiblingPatches(env, children[i + 1..], next));
  }

  // ---------------------------------------------------------------------------
  // The walker, as the source runs it

  /** The walker context: fixed settings and the patch list the walk appends to. */
  class WalkerContext {
    const templateStart: nat
    const filename: Option<string>
    const cwd: string
    var patches: seq<Patch>

    constructor (templateStart: nat, filename: Option<string>, cwd: string)
      ensures this.templateStart == templateStart && this.filename == filename && this.cwd == cwd
      ensures patches == []
    {
      this.templateStart := templateStart;
      this.filename := filename;
      this.cwd := cwd;
      patches := [];
    }

    function Environment(): Env {
      Env(templateStart, filename, cwd)
    }
  }

  method TransformCanDirective(can: Directive, ifDirective: Option<Directive>, ctx: WalkerContext)
    returns (r: Result<string, NuxtCanError>)
    modifies ctx
    ensures match CanPatches(ctx.Environment(), can, ifDirective)
      case Ok(out) => r == Ok(out.expression) && ctx.patches == old(ctx.patches) + out.patches
      case Err(e) => r == Err(e) && ctx.patches == old(ctx.patches)
  {
    var env := ctx.Environment();
    if !IsSimple(can.exp) {
      return Raise(env, can.loc, MsgCanStatic);
    }
    var canExpression := Trim(can.exp.value.content);
    if canExpression == "" {
      return Raise(env, can.loc, MsgCanRequired);
    }
    if ifDirective.Some? && IsSimple(ifDirective.value.exp) {
      var ifExpression := IfExpression(ifDirective.value.exp.value.content);
      var merged := Shifted(env, ifDirective.value, MergedText(canExpression, ifExpression));
      var erased := Shifted(env, can, "");
      assert CanPatches(env, can, ifDirective) == Ok(CanOutcome([merged, erased], canExpression));
      ctx.patches := ctx.patches + [merged, erased];
    } else {
      var guard := Shifted(env, can, GuardText(canExpression));
      ctx.patches := ctx.patches + [guard];
      assert CanPatches(env, can, ifDirective) == Ok(CanOutcome([guard], canExpression));
    }
    assert ctx.Environment() == env;
    return Ok(canExpression);
  }

  method TransformCannotDirective(directive: Directive, pending: Option<string>, ifDirective: Option<Directive>,
                                  ctx: WalkerContext)
    returns (failure: Option<NuxtCanError>)
    modifies ctx
    ensures match CannotPatches(ctx.Environment(), directive, pending, ifDirective)
      case Ok(ps) => failure.None? && ctx.patches == old(ctx.patches) + ps
      case Err(e) => failure == Some(e) && ctx.patches == old(ctx.patches)
  {
    var env := ctx.Environment();
    if directive.exp.Some? {
      return Some(RaiseDirectiveError(env.filename, env.cwd, directive.loc, MsgCannotExpression));
    }
    if directive.arg.Some? {
      return Some(RaiseDirectiveError(env.filename, env.cwd, directive.loc, MsgCannotArgument));
    }
    if |directive.modifiers| > 0 {
      return Some(RaiseDirectiveError(env.filename, env.cwd, directive.loc, MsgCannotModifiers));
    }
    if ifDirective.Some? {
      return Some(RaiseDirectiveError(env.filename, env.cwd, directive.loc, MsgCannotWithIf));
    }
    if pending.None? {
      return Some(RaiseDirectiveError(env.filename, env.cwd, directive.loc, MsgCannotAdjacent));
    }
    ctx.patches := ctx.patches + [Shifted(env, directive, NegatedText(pending.value))];
    return None;
  }

  method HandleElement(props: seq<Prop>, ctx: WalkerContext, pending: Option<string>)
    returns (r: Result<Option<string>, NuxtCanError>)
    modifies ctx
    ensures match ElementPatches(ctx.Environment(), props, pending)
      case Ok(h) => r == Ok(h.pending) && ctx.patches == old(ctx.patches) + h.patches
      case Err(e) => r == Err(e) && ctx.patches == old(ctx.patches)
  {
    var canDirective: Option<Directive> := None;
    var cannotDirective: Option<Directive> := None;
    var ifDirective: Option<Directive> := None;
    var i := 0;
    while i < |props|
      invariant 0 <= i <= |props|
      invariant canDirective == LastDirective(props[..i], "can")
      invariant cannotDirective == LastDirective(props[..i], "cannot")
      invariant ifDirective == LastDirective(props[..i], "if")
    {
      if props[i].DirectiveProp? {
        var prop := props[i].directive;
        if prop.name == "can" { canDirective := Some(prop); }
        if prop.name == "cannot" { cannotDirective := Some(prop); }
        if prop.name == "if" { ifDirective := Some(prop); }
      }
      assert props[..i + 1][..i] == props[..i];
      i := i + 1;
    }
    assert props[..i] == props;

    if canDirective.Some? && cannotDirective.Some? {
      return Raise(ctx.Environment(), cannotDirective.value.loc, MsgCanAndCannot);
    }
    if cannotDirective.Some? {
      var failure := TransformCannotDirective(cannotDirective.value, pending, ifDirective, ctx);
      if failure.Some? {
        return Err(failure.value);
      }
      return Ok(None);
    }
    if canDirective.Some? {
      var expression := TransformCanDirective(canDirective.value, ifDirective, ctx);
      if expression.Err? {
        return Err(expression.error);
      }
      return Ok(Some(expression.value));
    }
    return Ok(None);
  }

  method WalkChildren(children: seq<Node>, ctx: WalkerContext) returns (failure: Option<NuxtCanError>)
    modifies ctx
    decreases children
    ensures old(ctx.patches) <= ctx.patches
    ensures match SiblingPatches(ctx.Environment(), children, None)
      case Ok(ps) => failure.None? && ctx.patches == old(ctx.patches) + ps
      case Err(e) => failure == Some(e)
  {
    var env := ctx.Environment();
    ghost var before := ctx.patches;
    var pendingCan: Option<string> := None;
    var i := 0;
    assert children[i..] == children && ctx.patches[|before|..] == [];
    PrependNothing(SiblingPatches(env, children, None));
    while i < |children|
      invariant 0 <= i <= |children|
      invariant before <= ctx.patches
      invariant SiblingPatches(env, children, None)
             == Prepend(ctx.patches[|before|..], SiblingPatches(env, children[i..], pendingCan))
      decreases |children| - i
    {
      var child := children[i];
      if !child.Element? {
        PassOverStep(env, children, i, pendingCan);
      }
      match child {
        case NotANode =>
          pendingCan := None;
        case Text(content) =>
          if |Trim(content)| > 0 {
            pendingCan := None;
          }
        case Comment(_) =>
        case OtherNode =>
          pendingCan := None;
        case Element(props, kids) =>
          ghost var mark := ctx.patches;
          var next := HandleElement(props, ctx, pendingCan);
          if next.Err? {
            ElementFails(env, children, i, pendingCan);
            return Some(next.error);
          }
          ghost var own := ctx.patches[|mark|..];
          assert ctx.patches == mark + own;
          assert ElementPatches(env, props, pendingCan) == Ok(Handled(own, next.value));
          ghost var inner: seq<Patch> := [];
          if |kids| > 0 {
            var nested := WalkChildren(kids, ctx);
            if nested.Some? {
              ElementFails(env, children, i, pendingCan);
              return nested;
            }
            inner := ctx.patches[|mark| + |own|..];
          }
          assert ChildPatches(env, kids) == Ok(inner);
          assert ctx.patches == mark + own + inner;
          ghost var done := mark[|before|..];
          assert mark == before + done;
          ElementStep(env, children, i, pendingCan, done, own, next.value, inner);
          Regroup(before, done, own, inner);
          pendingCan := next.value;
      }
      i := i + 1;
    }
    assert ctx.patches == before + ctx.patches[|before|..];
    assert children[i..] == [];
    return None;
  }

  method CollectCanPatches(ast: Root, templateStart: nat, filename: Option<string>, cwd: string)
    returns (r: Result<seq<Patch>, NuxtCanError>)
    ensures r == CollectedPatches(ast, templateStart, filename, cwd)
  {
    var ctx := new WalkerContext(templateStart, filename, cwd);
    ghost var spec := SiblingPatches(ctx.Environment(), ast.children, None);
    assert spec == CollectedPatches(ast, templateStart, filename, cwd);
    var failure := WalkChildren(ast.children, ctx);
    if failure.Some? {
      return Err(failure.value);
    }
    assert spec.Ok? && ctx.patches == [] + spec.value;
    assert ctx.patches == spec.value;
    return Ok(ctx.patches);
  }
}
