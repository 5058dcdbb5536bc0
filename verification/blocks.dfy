/** `CodeBlock` and its variants: entry lines, the mutators `add_docstring`,
    `add_statement`, `add_codeblock` and `Define.returns`, and `to_lines`.

    A block is a value. `add_codeblock` copies the child's rendered lines into
    the parent as plain text lines, whereas `add_statement` stores the
    `Statement` block itself; rendering a block that holds such a statement
    raises, because the source then adds a string to a non-string.
 */
module Blocks {
  import opened Text
  import opened Outcomes
  import DocStrings

  /** The closed family of block kinds; `Base` is `CodeBlock` itself, which
      has no entry line. Only `NewClass` builds the classes the source can
      reach: it never leaves `bases` empty, whereas `Class(name, [])` would
      render the header `class name():`. */
  datatype Variant =
    | Base
    | Statement(statement: string)
    | If(expression: string)
    | ElIf(expression: string)
    | Else
    | ForLoop(index: string, iterable: string)
    | WhileLoop(expression: string)
    | Define(name: string, params: seq<string>)
    | Class(name: string, bases: seq<string>)

  /** An entry of `statements`: a rendered line, or a `Statement` block stored
      by `add_statement`. */
  datatype Stmt = Line(text: string) | HeldStatement(statement: Block)

  /** A code block. An empty `returnStmnt` means no return line: the source's
      `None` and "" are both falsy. */
  datatype Block = Block(
    kind: Variant,
    docstring: Option<DocStrings.DocString>,
    statements: seq<Stmt>,
    returnStmnt: string)

  /** An argument handed to a mutator, standing for any Python value: the
      source checks its type with `isinstance`. */
  datatype Value =
    | DocValue(doc: DocStrings.DocString)
    | BlockValue(block: Block)
    | OtherValue

  const DocstringTypeMessage: string := "'docstring' must be of type DocString"
  const StatementTypeMessage: string := "'stmnt' must be of type Statement"
  const CodeblockTypeMessage: string := "'codeblock' must be of type CodeBlock"
  /** The interpreter's complaint about `'    ' + stmnt` for a `Statement`. */
  const ConcatMessage: string := "can only concatenate str (not \"Statement\") to str"

  /** A freshly constructed block of the given kind. */
  function New(kind: Variant): Block
  {
    Block(kind, None, [], "")
  }

  /** `Class(name, *extends)`, with `extends` as `bases`: no bases means the
      single base `object`, so a class the source builds always has a base. */
  function NewClass(name: string, bases: seq<string>): (r: Block)
    ensures r.kind.Class? && r.kind.name == name && |r.kind.bases| > 0
    ensures |bases| > 0 ==> r.kind.bases == bases
    ensures r.docstring == None && r.statements == [] && r.returnStmnt == ""
  {
    New(Class(name, if |bases| > 0 then bases else ["object"]))
  }

  /** `_entry`: the header line of a block. */
  function Entry(kind: Variant): (r: Result<string>)
    ensures r.Err? <==> kind.Base?
    ensures kind.Base? ==> r.error == NotImplementedError
    ensures kind.Statement? ==> r.value == kind.statement
  {
    match kind
    case Base => Err(NotImplementedError)
    case Statement(s) => Ok(s)
    case If(e) => Ok("if " + e + ":")
    case ElIf(e) => Ok("elif " + e + ":")
    case Else => Ok("else:")
    case ForLoop(i, it) => Ok("for " + i + " in " + it + ":")
    case WhileLoop(e) => Ok("while " + e + ":")
    case Define(n, ps) => Ok("def " + n + "(" + Join(", ", ps) + "):")
    case Class(n, bs) => Ok("class " + n + "(" + Join(", ", bs) + "):")
  }

  // ---------------------------------------------------------------------
  // Rendering

  predicate AllLines(ss: seq<Stmt>)
  {
    forall i :: 0 <= i < |ss| ==> ss[i].Line?
  }

  /** The text of every entry, when all of them are text lines. */
  function Texts(ss: seq<Stmt>): seq<string>
    requires AllLines(ss)
  {
    seq(|ss|, i requires 0 <= i < |ss| => ss[i].text)
  }

  /** The loop over `statements` in `to_lines`: each entry is indented, and the
      first stored `Statement` block raises. */
  function RenderStatements(ss: seq<Stmt>): (r: Result<seq<string>>)
    ensures r.Ok? <==> AllLines(ss)
    ensures r.Err? ==> r.error == TypeError(ConcatMessage)
    ensures r.Ok? ==> r.value == Indent(Texts(ss))
  {
    if |ss| == 0 then Ok([])
    else match ss[0]
      case HeldStatement(_) => Err(TypeError(ConcatMessage))
      case Line(t) =>
        var rest := RenderStatements(ss[1..]);
        if rest.Err? then rest
        else
          assert AllLines(ss) ==> Indent(Texts(ss)) == [Pad + t] + Indent(Texts(ss[1..]));
          Ok([Pad + t] + rest.value)
  }

  /** The docstring's lines, none when there is no docstring. */
  function DocLines(b: Block): seq<string>
  {
    if b.docstring.Some? then DocStrings.Lines(b.docstring.value) else []
  }

  /** The return line, none when it is unset. */
  function ReturnLines(b: Block): seq<string>
  {
    if b.returnStmnt != "" then [b.returnStmnt] else []
  }

  /** `to_lines`: the entry line, then the indented docstring lines, stored
      statements and return line. */
  function Render(b: Block): (r: Result<seq<string>>)
    ensures r.Ok? <==> !b.kind.Base? && AllLines(b.statements)
    ensures b.kind.Base? ==> r == Err(NotImplementedError)
    ensures !b.kind.Base? && !AllLines(b.statements) ==> r == Err(TypeError(ConcatMessage))
  {
    var entry := Entry(b.kind);
    if entry.Err? then Err(entry.error)
    else
      var body := RenderStatements(b.statements);
      if body.Err? then Err(body.error)
      else Ok([entry.value] + Indent(DocLines(b)) + body.value + Indent(ReturnLines(b)))
  }

  /** The layout of a rendered block: the entry line, then the docstring's
      lines, the stored texts and the return line, each indented once; so one
      line per part, with the return line, when set, last. */
  lemma RenderShape(b: Block)
    requires Render(b).Ok?
    ensures Render(b).value == [Entry(b.kind).value] + Indent(DocLines(b))
                               + Indent(Texts(b.statements)) + Indent(ReturnLines(b))
    ensures |Render(b).value| == 1 + |DocLines(b)| + |b.statements| + |ReturnLines(b)|
    ensures b.returnStmnt != "" ==> Render(b).value[|Render(b).value| - 1] == Pad + b.returnStmnt
  {
  }

  // ---------------------------------------------------------------------
  // Mutators

  /** `add_docstring`. */
  function AddDocstring(b: Block, x: Value): (r: Step<Block>)
    ensures r.Done? <==> x.DocValue?
    ensures r.Threw? ==> r.error == TypeError(DocstringTypeMessage) && r.receiver == b
    ensures r.Done? ==> r.receiver.docstring == Some(x.doc)
    ensures r.receiver.kind == b.kind && r.receiver.statements == b.statements
    ensures r.receiver.returnStmnt == b.returnStmnt
  {
    if x.DocValue? then Done(b.(docstring := Some(x.doc)))
    else Threw(TypeError(DocstringTypeMessage), b)
  }

  /** `add_statement`: stores the `Statement` block itself. */
  function AddStatement(b: Block, x: Value): (r: Step<Block>)
    ensures r.Done? <==> x.BlockValue? && x.block.kind.Statement?
    ensures r.Threw? ==> r.error == TypeError(StatementTypeMessage) && r.receiver == b
    ensures r.Done? ==> |r.receiver.statements| == |b.statements| + 1
    ensures r.Done? ==> r.receiver.statements[..|b.statements|] == b.statements
    ensures r.Done? ==> r.receiver.statements[|b.statements|] == HeldStatement(x.block)
    ensures r.receiver.kind == b.kind && r.receiver.docstring == b.docstring
    ensures r.receiver.returnStmnt == b.returnStmnt
  {
    if x.BlockValue? && x.block.kind.Statement? then
      Done(b.(statements := b.statements + [HeldStatement(x.block)]))
    else Threw(TypeError(StatementTypeMessage), b)
  }

  function AsLines(ls: seq<string>): seq<Stmt>
  {
    seq(|ls|, i requires 0 <= i < |ls| => Line(ls[i]))
  }

  /** `add_codeblock`: renders the child now and appends its lines as text. */
  function AddCodeblock(b: Block, x: Value): (r: Step<Block>)
    ensures r.Done? <==> x.BlockValue? && Render(x.block).Ok?
    ensures !x.BlockValue? ==> r == Threw(TypeError(CodeblockTypeMessage), b)
    ensures x.BlockValue? && Render(x.block).Err? ==> r == Threw(Render(x.block).error, b)
    ensures r.Done? ==> && |b.statements| <= |r.receiver.statements|
                        && r.receiver.statements[..|b.statements|] == b.statements
                        && AllLines(r.receiver.statements[|b.statements|..])
                        && Texts(r.receiver.statements[|b.statements|..]) == Render(x.block).value
    ensures r.receiver.kind == b.kind && r.receiver.docstring == b.docstring
    ensures r.receiver.returnStmnt == b.returnStmnt
  {
    if !x.BlockValue? then Threw(TypeError(CodeblockTypeMessage), b)
    else
      var lines := Render(x.block);
      if lines.Err? then Threw(lines.error, b)
      else
        var ss := b.statements + AsLines(lines.value);
        assert ss[|b.statements|..] == AsLines(lines.value);
        Done(b.(statements := ss))
  }

  /** `Define.returns`, which only `Define` blocks have. */
  function Returns(b: Block, what: string): (r: Block)
    requires b.kind.Define?
    ensures r.returnStmnt == "return " + what
    ensures r.kind == b.kind && r.docstring == b.docstring && r.statements == b.statements
  {
    b.(returnStmnt := "return " + what)
  }
}
