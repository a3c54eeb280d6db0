/**
 * What the collector promises, stated over the specification functions of
 * module Patches: the per-element rewrite rules, the pending-`v-can` state
 * machine over a sibling list, and where the patches land.
 */
module CollectorProperties {
  import opened Wrappers
  import opened JsString
  import opened TemplateAst
  import opened Types
  import opened Errors
  import opened Patches
  import opened Patcher

  /** Blank text and comments: siblings the pending `v-can` survives. */
  predicate Transparent(n: Node) {
    n.Comment? || (n.Text? && IsBlank(n.content))
  }

  predicate AllTransparent(ws: seq<Node>) {
    forall k | 0 <= k < |ws| :: Transparent(ws[k])
  }

  /** An element whose only relevant directive is `v-cannot` (the last one is `d`) with no expression, argument or modifier. */
  predicate BareCannot(props: seq<Prop>, d: Directive) {
    LastDirective(props, "cannot") == Some(d)
    && LastDirective(props, "can").None?
    && LastDirective(props, "if").None?
    && d.exp.None? && d.arg.None? && d.modifiers == []
  }

  // ---------------------------------------------------------------------------
  // One element

  /** `v-can` and `v-cannot` on one element always fail, at the `v-cannot`, with no patch for it. */
  lemma BothDirectivesFail(env: Env, props: seq<Prop>, pending: Option<string>)
    requires LastDirective(props, "can").Some? && LastDirective(props, "cannot").Some?
    ensures ElementPatches(env, props, pending)
         == Err(RaiseDirectiveError(env.filename, env.cwd, LastDirective(props, "cannot").value.loc, MsgCanAndCannot))
  {
  }

  /** An element with neither directive emits nothing and clears the pending `v-can`. */
  lemma PlainElement(env: Env, props: seq<Prop>, pending: Option<string>)
    requires LastDirective(props, "can").None? && LastDirective(props, "cannot").None?
    ensures ElementPatches(env, props, pending) == Ok(Handled([], None))
  {
  }

  /**
   * `v-can` fails exactly when its expression is missing, not simple, or blank
   * after trimming, and then with the matching message.
   */
  lemma CanRejected(env: Env, props: seq<Prop>, pending: Option<string>)
    requires LastDirective(props, "can").Some? && LastDirective(props, "cannot").None?
    ensures var can := LastDirective(props, "can").value;
      ElementPatches(env, props, pending).Err?
      <==> !IsSimple(can.exp) || IsBlank(can.exp.value.content)
    ensures var can := LastDirective(props, "can").value;
      !IsSimple(can.exp) ==>
        ElementPatches(env, props, pending) == Err(RaiseDirectiveError(env.filename, env.cwd, can.loc, MsgCanStatic))
    ensures var can := LastDirective(props, "can").value;
      IsSimple(can.exp) && IsBlank(can.exp.value.content) ==>
        ElementPatches(env, props, pending) == Err(RaiseDirectiveError(env.filename, env.cwd, can.loc, MsgCanRequired))
  {
  }

  /**
   * `v-can="E"` without a `v-if`, or beside one whose expression is not
   * simple: exactly one patch, over the `v-can` span, with text `v-if="E"`
   * for the trimmed `E`; the next sibling sees `E` pending.
   */
  lemma CanWithoutSimpleIf(env: Env, props: seq<Prop>, pending: Option<string>)
    requires LastDirective(props, "can").Some? && LastDirective(props, "cannot").None?
    requires var can := LastDirective(props, "can").value;
      IsSimple(can.exp) && !IsBlank(can.exp.value.content)
    requires var ifDirective := LastDirective(props, "if");
      ifDirective.None? || !IsSimple(ifDirective.value.exp)
    ensures var can := LastDirective(props, "can").value;
      var e := Trim(can.exp.value.content);
      ElementPatches(env, props, pending)
      == Ok(Handled([Shifted(env, can, GuardText(e))], Some(e)))
  {
    var can := LastDirective(props, "can").value;
    var e := Trim(can.exp.value.content);
    assert e != "";
    assert CanPatches(env, can, LastDirective(props, "if")) == Ok(CanOutcome([Shifted(env, can, GuardText(e))], e));
    assert ElementPatches(env, props, pending) == Ok(Handled([Shifted(env, can, GuardText(e))], Some(e)));
  }

  /**
   * `v-can="E"` beside `v-if="I"` with a simple expression: two patches, the
   * `v-if` span becoming `v-if="(E) && (I)"` (with `I` trimmed, `true` when
   * blank) and then the `v-can` span erased.
   */
  lemma CanWithSimpleIf(env: Env, props: seq<Prop>, pending: Option<string>)
    requires LastDirective(props, "can").Some? && LastDirective(props, "cannot").None?
    requires var can := LastDirective(props, "can").value;
      IsSimple(can.exp) && !IsBlank(can.exp.value.content)
    requires var ifDirective := LastDirective(props, "if");
      ifDirective.Some? && IsSimple(ifDirective.value.exp)
    ensures var can := LastDirective(props, "can").value;
      var ifDirective := LastDirective(props, "if").value;
      var e := Trim(can.exp.value.content);
      var i := IfExpression(ifDirective.exp.value.content);
      ElementPatches(env, props, pending)
      == Ok(Handled([Shifted(env, ifDirective, MergedText(e, i)), Shifted(env, can, "")], Some(e)))
  {
    var can := LastDirective(props, "can").value;
    var ifDirective := LastDirective(props, "if").value;
    var e := Trim(can.exp.value.content);
    var i := IfExpression(ifDirective.exp.value.content);
    assert e != "";
    assert CanPatches(env, can, Some(ifDirective))
        == Ok(CanOutcome([Shifted(env, ifDirective, MergedText(e, i)), Shifted(env, can, "")], e));
    assert ElementPatches(env, props, pending)
        == Ok(Handled([Shifted(env, ifDirective, MergedText(e, i)), Shifted(env, can, "")], Some(e)));
  }

  /**
   * `v-cannot` checks, in this order: an expression, an argument, modifiers,
   * a `v-if` on the element, a missing pending `v-can`; otherwise it emits one
   * patch over its own span negating the pending expression, and clears it.
   */
  lemma CannotChecks(env: Env, props: seq<Prop>, pending: Option<string>)
    requires LastDirective(props, "cannot").Some? && LastDirective(props, "can").None?
    ensures var d := LastDirective(props, "cannot").value;
      var fail := (m: string) => Err(RaiseDirectiveError(env.filename, env.cwd, d.loc, m));
      ElementPatches(env, props, pending)
      == if d.exp.Some? then fail(MsgCannotExpression)
         else if d.arg.Some? then fail(MsgCannotArgument)
         else if |d.modifiers| > 0 then fail(MsgCannotModifiers)
         else if LastDirective(props, "if").Some? then fail(MsgCannotWithIf)
         else if pending.None? then fail(MsgCannotAdjacent)
         else Ok(Handled([Shifted(env, d, NegatedText(pending.value))], None))
  {
  }

  // ---------------------------------------------------------------------------
  // The pending `v-can` over a sibling list

  /** Blank text and comments are skipped without touching the pending `v-can`. */
  lemma {:induction false} TransparentSiblingsKeepPending(env: Env, ws: seq<Node>, rest: seq<Node>, pending: Option<string>)
    requires AllTransparent(ws)
    ensures SiblingPatches(env, ws + rest, pending) == SiblingPatches(env, rest, pending)
    decreases |ws|
  {
    if ws == [] {
      assert ws + rest == rest;
    } else {
      var all := ws + rest;
      assert all[0] == ws[0] && all[1..] == ws[1..] + rest;
      assert PassOver(ws[0], pending) == pending;
      assert SiblingPatches(env, all, pending) == SiblingPatches(env, all[1..], pending);
      TransparentSiblingsKeepPending(env, ws[1..], rest, pending);
    }
  }

  /** Non-blank text and every node that is neither an element, text nor comment clear the pending `v-can`. */
  lemma ClearingSibling(env: Env, node: Node, rest: seq<Node>, pending: Option<string>)
    requires node.NotANode? || node.OtherNode? || (node.Text? && !IsBlank(node.content))
    ensures SiblingPatches(env, [node] + rest, pending) == SiblingPatches(env, rest, None)
  {
    assert ([node] + rest)[1..] == rest;
  }

  /** A bare `v-cannot` preceded in its list only by blank text and comments has no `v-can` to negate. */
  lemma CannotFirstInListFails(env: Env, ws: seq<Node>, props: seq<Prop>, d: Directive, kids: seq<Node>,
                               rest: seq<Node>)
    requires AllTransparent(ws) && BareCannot(props, d)
    ensures SiblingPatches(env, ws + ([Element(props, kids)] + rest), None)
         == Err(RaiseDirectiveError(env.filename, env.cwd, d.loc, MsgCannotAdjacent))
  {
    TransparentSiblingsKeepPending(env, ws, [Element(props, kids)] + rest, None);
  }

  /** An element heading a list: its own patches, then its children's, then the walk of the rest. */
  lemma ElementHead(env: Env, props: seq<Prop>, kids: seq<Node>, rest: seq<Node>, pending: Option<string>,
                    own: seq<Patch>, next: Option<string>, inner: seq<Patch>)
    requires ElementPatches(env, props, pending) == Ok(Handled(own, next))
    requires ChildPatches(env, kids) == Ok(inner)
    ensures SiblingPatches(env, [Element(props, kids)] + rest, pending)
         == Prepend(own + inner, SiblingPatches(env, rest, next))
  {
    assert ([Element(props, kids)] + rest)[1..] == rest;
  }

  /** A bare `v-cannot` with `E` pending negates `E` and clears it. */
  lemma BareCannotNegates(env: Env, props: seq<Prop>, d: Directive, e: string)
    requires BareCannot(props, d)
    ensures ElementPatches(env, props, Some(e)) == Ok(Handled([Shifted(env, d, NegatedText(e))], None))
  {
  }

  /**
   * A `v-can` element, then only blank text and comments, then a bare
   * `v-cannot` element: the `v-cannot` span becomes `v-if="!(E)"` for the
   * `v-can`'s expression `E`, after the `v-can` element's own patches and its
   * children's, and the rest of the list starts with nothing pending.
   */
  lemma CanThenCannot(env: Env, canProps: seq<Prop>, canKids: seq<Node>, ws: seq<Node>,
                      cannotProps: seq<Prop>, d: Directive, cannotKids: seq<Node>, rest: seq<Node>,
                      pending: Option<string>, canPatches: seq<Patch>, e: string,
                      canInner: seq<Patch>, cannotInner: seq<Patch>)
    requires ElementPatches(env, canProps, pending) == Ok(Handled(canPatches, Some(e)))
    requires ChildPatches(env, canKids) == Ok(canInner)
    requires AllTransparent(ws)
    requires BareCannot(cannotProps, d)
    requires ChildPatches(env, cannotKids) == Ok(cannotInner)
    ensures SiblingPatches(env, [Element(canProps, canKids)] + (ws + ([Element(cannotProps, cannotKids)] + rest)), pending)
         == Prepend(canPatches + canInner + [Shifted(env, d, NegatedText(e))] + cannotInner,
                    SiblingPatches(env, rest, None))
  {
    var after := [Element(cannotProps, cannotKids)] + rest;
    var negation := Shifted(env, d, NegatedText(e));
    var tail := SiblingPatches(env, rest, None);
    BareCannotNegates(env, cannotProps, d, e);
    ElementHead(env, cannotProps, cannotKids, rest, Some(e), [negation], None, cannotInner);
    TransparentSiblingsKeepPending(env, ws, after, Some(e));
    ElementHead(env, canProps, canKids, ws + after, pending, canPatches, Some(e), canInner);
    PrependTwice(canPatches + canInner, [negation] + cannotInner, tail);
    assert canPatches + canInner + ([negation] + cannotInner) == canPatches + canInner + [negation] + cannotInner;
  }

  /** Only one `v-cannot` applies per `v-can`: a second bare one after the first fails. */
  lemma OneCannotPerCan(env: Env, canProps: seq<Prop>, canKids: seq<Node>, ws: seq<Node>,
                        cannotProps: seq<Prop>, d: Directive, cannotKids: seq<Node>,
                        ws2: seq<Node>, againProps: seq<Prop>, again: Directive, againKids: seq<Node>,
                        rest: seq<Node>, pending: Option<string>, canPatches: seq<Patch>, e: string,
                        canInner: seq<Patch>, cannotInner: seq<Patch>)
    requires ElementPatches(env, canProps, pending) == Ok(Handled(canPatches, Some(e)))
    requires ChildPatches(env, canKids) == Ok(canInner)
    requires AllTransparent(ws) && AllTransparent(ws2)
    requires BareCannot(cannotProps, d) && BareCannot(againProps, again)
    requires ChildPatches(env, cannotKids) == Ok(cannotInner)
    ensures SiblingPatches(env, [Element(canProps, canKids)] + (ws + ([Element(cannotProps, cannotKids)]
                                + (ws2 + ([Element(againProps, againKids)] + rest)))), pending)
         == Err(RaiseDirectiveError(env.filename, env.cwd, again.loc, MsgCannotAdjacent))
  {
    var tail := ws2 + ([Element(againProps, againKids)] + rest);
    CanThenCannot(env, canProps, canKids, ws, cannotProps, d, cannotKids, tail, pending, canPatches, e,
                  canInner, cannotInner);
    CannotFirstInListFails(env, ws2, againProps, again, againKids, rest);
  }

  /**
   * Each child list starts with nothing pending: a bare `v-cannot` heading
   * the children of any element (a wrapper, or the `v-can` element itself)
   * fails whatever is pending among that element's siblings.
   */
  lemma NestedCannotFails(env: Env, props: seq<Prop>, ws: seq<Node>, cannotProps: seq<Prop>, d: Directive,
                          cannotKids: seq<Node>, more: seq<Node>, rest: seq<Node>, pending: Option<string>)
    requires ElementPatches(env, props, pending).Ok?
    requires AllTransparent(ws) && BareCannot(cannotProps, d)
    ensures SiblingPatches(env, [Element(props, ws + ([Element(cannotProps, cannotKids)] + more))] + rest, pending)
         == Err(RaiseDirectiveError(env.filename, env.cwd, d.loc, MsgCannotAdjacent))
  {
    CannotFirstInListFails(env, ws, cannotProps, d, cannotKids, more);
  }

  /** Pre-order: an element's own patches come before those of its children and of later siblings. */
  lemma OwnPatchesFirst(env: Env, props: seq<Prop>, kids: seq<Node>, rest: seq<Node>, pending: Option<string>)
    requires SiblingPatches(env, [Element(props, kids)] + rest, pending).Ok?
    ensures ElementPatches(env, props, pending).Ok?
    ensures ElementPatches(env, props, pending).value.patches
            <= SiblingPatches(env, [Element(props, kids)] + rest, pending).value
  {
  }

  // ---------------------------------------------------------------------------
  // Where the patches land

  /** The patch is a directive's span, moved by the template start. */
  predicate FromDirective(env: Env, p: Patch, ds: seq<Directive>) {
    exists d | d in ds :: p == Shifted(env, d, p.text)
  }

  lemma LastDirectiveListed(props: seq<Prop>, name: string)
    requires LastDirective(props, name).Some?
    ensures LastDirective(props, name).value in PropDirectives(props)
  {
    var i :| 0 <= i < |props| && props[i] == DirectiveProp(LastDirective(props, name).value);
  }

  lemma ShiftedFromDirective(env: Env, d: Directive, text: string, ds: seq<Directive>)
    requires d in ds
    ensures FromDirective(env, Shifted(env, d, text), ds)
  {
    assert Shifted(env, d, text) == Shifted(env, d, Shifted(env, d, text).text);
  }

  lemma CanPatchesFromDirectives(env: Env, can: Directive, ifDirective: Option<Directive>, ds: seq<Directive>)
    requires CanPatches(env, can, ifDirective).Ok?
    requires can in ds && (ifDirective.Some? ==> ifDirective.value in ds)
    ensures forall p | p in CanPatches(env, can, ifDirective).value.patches :: FromDirective(env, p, ds)
  {
    var e := Trim(can.exp.value.content);
    var out := CanPatches(env, can, ifDirective).value;
    if ifDirective.Some? && IsSimple(ifDirective.value.exp) {
      var i := ifDirective.value;
      var merged := Shifted(env, i, MergedText(e, IfExpression(i.exp.value.content)));
      var erased := Shifted(env, can, "");
      assert out.patches == [merged, erased];
      ShiftedFromDirective(env, i, merged.text, ds);
      ShiftedFromDirective(env, can, "", ds);
    } else {
      var guard := Shifted(env, can, GuardText(e));
      assert out.patches == [guard];
      ShiftedFromDirective(env, can, guard.text, ds);
    }
  }

  lemma ElementPatchesFromProps(env: Env, props: seq<Prop>, pending: Option<string>)
    requires ElementPatches(env, props, pending).Ok?
    ensures forall p | p in ElementPatches(env, props, pending).value.patches :: FromDirective(env, p, PropDirectives(props))
  {
    var ds := PropDirectives(props);
    var can, cannot, ifDirective := LastDirective(props, "can"), LastDirective(props, "cannot"), LastDirective(props, "if");
    var own := ElementPatches(env, props, pending).value.patches;
    if cannot.Some? {
      var d := cannot.value;
      assert own == CannotPatches(env, d, pending, ifDirective).value == [Shifted(env, d, NegatedText(pending.value))];
      LastDirectiveListed(props, "cannot");
      ShiftedFromDirective(env, d, NegatedText(pending.value), ds);
    } else if can.Some? {
      assert own == CanPatches(env, can.value, ifDirective).value.patches;
      LastDirectiveListed(props, "can");
      if ifDirective.Some? {
        LastDirectiveListed(props, "if");
      }
      CanPatchesFromDirectives(env, can.value, ifDirective, ds);
    } else {
      assert own == [];
    }
  }

  /** Every patch offset is the template start plus the offset of some directive of the tree. */
  lemma {:induction false} PatchesFromDirectives(env: Env, children: seq<Node>, pending: Option<string>)
    requires SiblingPatches(env, children, pending).Ok?
    ensures forall p | p in SiblingPatches(env, children, pending).value :: FromDirective(env, p, Directives(children))
    decreases children
  {
    if children != [] {
      var rest := children[1..];
      var all := Directives(children);
      if !children[0].Element? {
        PatchesFromDirectives(env, rest, PassOver(children[0], pending));
      } else {
        var props, kids := children[0].props, children[0].children;
        var h := ElementPatches(env, props, pending).value;
        ElementPatchesFromProps(env, props, pending);
        var inner := ChildPatches(env, kids).value;
        if |kids| > 0 {
          PatchesFromDirectives(env, kids, None);
        }
        PatchesFromDirectives(env, rest, h.pending);
        assert all == PropDirectives(props) + Directives(kids) + Directives(rest);
        forall p | p in SiblingPatches(env, children, pending).value ensures FromDirective(env, p, all) {
          var tail := SiblingPatches(env, rest, h.pending).value;
          assert p in h.patches || p in inner || p in tail;
        }
      }
    }
  }

  /** Whatever the directive spans, no patch starts before the template content. */
  lemma PatchesAfterTemplateStart(ast: Root, templateStart: nat, filename: Option<string>, cwd: string)
    requires CollectedPatches(ast, templateStart, filename, cwd).Ok?
    ensures forall p | p in CollectedPatches(ast, templateStart, filename, cwd).value :: templateStart <= p.start
  {
    PatchesFromDirectives(Env(templateStart, filename, cwd), ast.children, None);
  }

  /** Directive spans that lie in a template text of length `len` give patches inside the template region. */
  lemma PatchesWithinTemplate(ast: Root, templateStart: nat, filename: Option<string>, cwd: string, len: nat)
    requires CollectedPatches(ast, templateStart, filename, cwd).Ok?
    requires forall d | d in Directives(ast.children) :: d.loc.start.offset <= d.loc.end.offset <= len
    ensures forall p | p in CollectedPatches(ast, templateStart, filename, cwd).value ::
              templateStart <= p.start <= p.end <= templateStart + len
  {
    var env := Env(templateStart, filename, cwd);
    PatchesFromDirectives(env, ast.children, None);
  }

  // No two patches overlap

  /**
   * The directive spans the template parser reports: each is non-empty, lies
   * in a template text of length `len`, and no two occurrences overlap.
   */
  predicate SpansApart(ds: seq<Directive>, len: nat) {
    (forall i | 0 <= i < |ds| :: ds[i].loc.start.offset < ds[i].loc.end.offset <= len)
    && (forall i, j | 0 <= i < j < |ds| ::
          ds[i].loc.end.offset <= ds[j].loc.start.offset || ds[j].loc.end.offset <= ds[i].loc.start.offset)
  }

  /** `src[k]` is the directive whose span the patch `ps[k]` covers. */
  predicate CoveredBy(env: Env, ps: seq<Patch>, src: seq<Directive>) {
    |ps| == |src|
    && forall k | 0 <= k < |ps| ::
         ps[k].start == env.templateStart + src[k].loc.start.offset
         && ps[k].end == env.templateStart + src[k].loc.end.offset
  }

  lemma CoveredByAppend(env: Env, ps: seq<Patch>, src: seq<Directive>, qs: seq<Patch>, tgt: seq<Directive>)
    requires CoveredBy(env, ps, src) && CoveredBy(env, qs, tgt)
    ensures CoveredBy(env, ps + qs, src + tgt)
  {
    forall k | 0 <= k < |ps + qs|
      ensures (ps + qs)[k].start == env.templateStart + (src + tgt)[k].loc.start.offset
      ensures (ps + qs)[k].end == env.templateStart + (src + tgt)[k].loc.end.offset
    {
      if k >= |ps| {
        assert (ps + qs)[k] == qs[k - |ps|] && (src + tgt)[k] == tgt[k - |src|];
      }
    }
  }

  lemma ListedPair(a: Directive, b: Directive, ds: seq<Directive>)
    requires a in ds && b in ds && a != b
    ensures multiset([a, b]) <= multiset(ds)
  {
    assert a in multiset(ds) && b in multiset(ds);
  }

  lemma ListedOne(d: Directive, ds: seq<Directive>)
    requires d in ds
    ensures multiset([d]) <= multiset(ds)
  {
    assert d in multiset(ds);
  }

  lemma CanPatchSources(env: Env, can: Directive, ifDirective: Option<Directive>, ds: seq<Directive>) returns (src: seq<Directive>)
    requires CanPatches(env, can, ifDirective).Ok?
    requires can in ds && (ifDirective.Some? ==> ifDirective.value in ds)
    requires ifDirective.Some? ==> ifDirective.value.name != can.name
    ensures CoveredBy(env, CanPatches(env, can, ifDirective).value.patches, src)
    ensures multiset(src) <= multiset(ds)
  {
    var e := Trim(can.exp.value.content);
    var out := CanPatches(env, can, ifDirective).value;
    if ifDirective.Some? && IsSimple(ifDirective.value.exp) {
      var i := ifDirective.value;
      assert out.patches == [Shifted(env, i, MergedText(e, IfExpression(i.exp.value.content))), Shifted(env, can, "")];
      ListedPair(i, can, ds);
      src := [i, can];
    } else {
      assert out.patches == [Shifted(env, can, GuardText(e))];
      ListedOne(can, ds);
      src := [can];
    }
  }

  /** Each patch of an element covers a distinct directive among its own props. */
  lemma ElementPatchSources(env: Env, props: seq<Prop>, pending: Option<string>) returns (src: seq<Directive>)
    requires ElementPatches(env, props, pending).Ok?
    ensures CoveredBy(env, ElementPatches(env, props, pending).value.patches, src)
    ensures multiset(src) <= multiset(PropDirectives(props))
  {
    var ds := PropDirectives(props);
    var can, cannot, ifDirective := LastDirective(props, "can"), LastDirective(props, "cannot"), LastDirective(props, "if");
    var own := ElementPatches(env, props, pending).value.patches;
    if cannot.Some? {
      var d := cannot.value;
      assert own == CannotPatches(env, d, pending, ifDirective).value == [Shifted(env, d, NegatedText(pending.value))];
      LastDirectiveListed(props, "cannot");
      ListedOne(d, ds);
      src := [d];
    } else if can.Some? {
      assert own == CanPatches(env, can.value, ifDirective).value.patches;
      LastDirectiveListed(props, "can");
      if ifDirective.Some? {
        LastDirectiveListed(props, "if");
      }
      src := CanPatchSources(env, can.value, ifDirective, ds);
    } else {
      assert own == [];
      src := [];
    }
  }

  /** Each collected patch covers its own directive occurrence of the walked lists: no occurrence is used twice. */
  lemma {:induction false} PatchSources(env: Env, children: seq<Node>, pending: Option<string>) returns (src: seq<Directive>)
    requires SiblingPatches(env, children, pending).Ok?
    ensures CoveredBy(env, SiblingPatches(env, children, pending).value, src)
    ensures multiset(src) <= multiset(Directives(children))
    decreases children
  {
    if children == [] {
      src := [];
    } else {
      var rest := children[1..];
      if !children[0].Element? {
        src := PatchSources(env, rest, PassOver(children[0], pending));
      } else {
        var props, kids := children[0].props, children[0].children;
        var h := ElementPatches(env, props, pending).value;
        var own := ElementPatchSources(env, props, pending);
        var inner := ChildPatches(env, kids).value;
        var below: seq<Directive> := [];
        if |kids| > 0 {
          below := PatchSources(env, kids, None);
        }
        var tail := PatchSources(env, rest, h.pending);
        CoveredByAppend(env, h.patches, own, inner, below);
        CoveredByAppend(env, h.patches + inner, own + below, SiblingPatches(env, rest, h.pending).value, tail);
        assert SiblingPatches(env, children, pending).value == h.patches + inner + SiblingPatches(env, rest, h.pending).value;
        assert Directives(children) == PropDirectives(props) + Directives(kids) + Directives(rest);
        src := own + below + tail;
      }
    }
  }

  lemma TwiceCounted(s: seq<Directive>, i: nat, j: nat)
    requires i < j < |s| && s[i] == s[j]
    ensures multiset(s)[s[i]] >= 2
  {
    assert s == s[..j] + [s[j]] + s[j + 1..];
    assert s[i] in multiset(s[..j]);
  }

  lemma {:induction false} CountedOnce(s: seq<Directive>, x: Directive)
    requires forall i, j | 0 <= i < j < |s| :: s[i] != s[j]
    ensures multiset(s)[x] <= 1
  {
    if s != [] {
      var init := s[..|s| - 1];
      assert s == init + [s[|s| - 1]];
      CountedOnce(init, x);
      if s[|s| - 1] == x {
        forall i | 0 <= i < |init| ensures init[i] != x {
          assert init[i] == s[i];
        }
      }
    }
  }

  /** Occurrences taken from a list of apart spans, each at most as often as it occurs there, are apart too. */
  lemma SubSpansApart(src: seq<Directive>, ds: seq<Directive>, len: nat)
    requires SpansApart(ds, len)
    requires multiset(src) <= multiset(ds)
    ensures SpansApart(src, len)
  {
    assert forall i | 0 <= i < |src| :: src[i] in multiset(src);
    forall i, j | 0 <= i < j < |src|
      ensures src[i].loc.end.offset <= src[j].loc.start.offset || src[j].loc.end.offset <= src[i].loc.start.offset
    {
      assert src[i] in multiset(ds) && src[j] in multiset(ds);
      var a :| 0 <= a < |ds| && ds[a] == src[i];
      var b :| 0 <= b < |ds| && ds[b] == src[j];
      if a == b {
        TwiceCounted(src, i, j);
        CountedOnce(ds, src[i]);
        assert false;
      }
    }
  }

  lemma ApartPatchesDisjoint(env: Env, ps: seq<Patch>, src: seq<Directive>, len: nat)
    requires CoveredBy(env, ps, src) && SpansApart(src, len)
    ensures Disjoint(ps, env.templateStart + len)
  {
    forall p | p in ps ensures p.start <= p.end <= env.templateStart + len {
      var k :| 0 <= k < |ps| && ps[k] == p;
    }
    forall p, q | p in ps && q in ps && p.start < q.start ensures p.end <= q.start {
      var a :| 0 <= a < |ps| && ps[a] == p;
      var b :| 0 <= b < |ps| && ps[b] == q;
      assert a != b;
    }
  }

  /**
   * No two collected patches overlap, given that the template parser reports
   * non-empty directive spans that do not overlap each other: each directive
   * occurrence yields at most one patch, over its own span.
   */
  lemma CollectedDisjoint(ast: Root, templateStart: nat, filename: Option<string>, cwd: string, len: nat)
    requires CollectedPatches(ast, templateStart, filename, cwd).Ok?
    requires SpansApart(Directives(ast.children), len)
    ensures Disjoint(CollectedPatches(ast, templateStart, filename, cwd).value, templateStart + len)
  {
    var env := Env(templateStart, filename, cwd);
    var src := PatchSources(env, ast.children, None);
    SubSpansApart(src, Directives(ast.children), len);
    ApartPatchesDisjoint(env, CollectedPatches(ast, templateStart, filename, cwd).value, src, len);
  }
}
