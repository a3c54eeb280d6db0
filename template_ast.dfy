/**
 * The parsed template tree the transformer walks. The single-file-component
 * parser and the template parser are outside this model: their output is an
 * input here. Offsets are relative to the template text; lines and columns
 * are the parser's 1-based positions, used only in error messages.
 */
module TemplateAst {
  import opened Wrappers

  datatype Position = Position(offset: nat, line: nat, column: nat)

  datatype SourceLocation = SourceLocation(start: Position, end: Position)

  /** A directive's expression or argument: a simple (static) expression or a compound one. */
  datatype Expression =
    | SimpleExpression(content: string)
    | CompoundExpression

  /** `v-name:arg.mod1.mod2="exp"`, written without its `v-` prefix in `name`. */
  datatype Directive = Directive(
    name: string,
    exp: Option<Expression>,
    arg: Option<Expression>,
    modifiers: seq<string>,
    loc: SourceLocation)

  /** An element prop: a plain attribute or a directive. */
  datatype Prop =
    | Attribute(attrName: string)
    | DirectiveProp(directive: Directive)

  /**
   * A child of the template root or of an element. `OtherNode` stands for
   * every other node kind (interpolation, CDATA, ...); `NotANode` is a child
   * that is not an object with a `type` at all, which `isTemplateChild`
   * rejects.
   */
  datatype Node =
    | Element(props: seq<Prop>, children: seq<Node>)
    | Text(content: string)
    | Comment(comment: string)
    | OtherNode
    | NotANode

  datatype Root = Root(children: seq<Node>)

  /** Every directive of `nodes` and of their descendants, in document order. */
  function Directives(nodes: seq<Node>): seq<Directive>
    decreases nodes
  {
    if nodes == [] then []
    else
      var own := match nodes[0]
        case Element(props, kids) => PropDirectives(props) + Directives(kids)
        case _ => [];
      own + Directives(nodes[1..])
  }

  function PropDirectives(props: seq<Prop>): (ds: seq<Directive>)
    ensures forall i | 0 <= i < |props| && props[i].DirectiveProp? :: props[i].directive in ds
  {
    if props == [] then []
    else (if props[0].DirectiveProp? then [props[0].directive] else []) + PropDirectives(props[1..])
  }
}
