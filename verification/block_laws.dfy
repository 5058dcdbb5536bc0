/** Properties of block composition and rendering that relate several calls:
    entry lines identify their construct, `returns` overwrites, stored
    `Statement` blocks make rendering fail, and nesting adds one indentation
    level per enclosing block. */
module BlockLaws {
  import opened Text
  import opened Outcomes
  import opened Blocks

  /** The keyword that opens the header of a compound construct. */
  function Keyword(kind: Variant): string
  {
    match kind
    case If(_) => "if"
    case ElIf(_) => "elif"
    case Else => "else"
    case ForLoop(_, _) => "for"
    case WhileLoop(_) => "while"
    case Define(_, _) => "def"
    case Class(_, _) => "class"
    case _ => ""
  }

  predicate Compound(kind: Variant)
  {
    !kind.Base? && !kind.Statement?
  }

  /** The header of every compound construct starts with its keyword and ends
      with the colon that opens its suite. */
  lemma EntryShape(kind: Variant)
    requires Compound(kind)
    ensures var e := Entry(kind).value;
      |e| > |Keyword(kind)| && e[..|Keyword(kind)|] == Keyword(kind) && e[|e| - 1] == ':'
  {
    var k := Keyword(kind);
    match kind
    case If(x) => KeywordLine(k, " " + x, Entry(kind).value);
    case ElIf(x) => KeywordLine(k, " " + x, Entry(kind).value);
    case Else => KeywordLine(k, "", Entry(kind).value);
    case ForLoop(i, it) => KeywordLine(k, " " + i + " in " + it, Entry(kind).value);
    case WhileLoop(x) => KeywordLine(k, " " + x, Entry(kind).value);
    case Define(n, ps) => KeywordLine(k, " " + n + "(" + Join(", ", ps) + ")", Entry(kind).value);
    case Class(n, bs) => KeywordLine(k, " " + n + "(" + Join(", ", bs) + ")", Entry(kind).value);
  }

  /** A line made of a keyword, more text and a colon. */
  lemma KeywordLine(k: string, middle: string, e: string)
    requires e == k + middle + ":"
    ensures |e| > |k| && e[..|k|] == k && e[|e| - 1] == ':'
  {
  }

  /** Two compound constructs with the same header are the same kind of
      construct, and for the conditionals, `else` and `while` the header gives
      back the whole construct, expression included. */
  lemma EntryDeterminesVariant(v: Variant, w: Variant)
    requires Compound(v) && Compound(w)
    requires Entry(v) == Entry(w)
    ensures Keyword(v) == Keyword(w)
    ensures v.If? || v.ElIf? || v.Else? || v.WhileLoop? ==> v == w
  {
    var e := Entry(v).value;
    EntryShape(v);
    EntryShape(w);
    var kv, kw := Keyword(v), Keyword(w);
    assert kv[0] == e[0] == kw[0];
    if kv[0] == 'e' {
      assert kv[2] == e[2] == kw[2];
    }
    if v.If? || v.ElIf? || v.WhileLoop? {
      assert w.expression == e[|kv| + 1..|e| - 1] == v.expression;
    }
  }

  /** A class given no bases derives from `object`; given bases, exactly them. */
  lemma ClassBases(name: string, bases: seq<string>)
    ensures |bases| == 0 ==> Entry(NewClass(name, bases).kind) == Ok("class " + name + "(object):")
    ensures |bases| > 0 ==> Entry(NewClass(name, bases).kind) == Ok("class " + name + "(" + Join(", ", bases) + "):")
  {
    if |bases| == 0 {
      ObjectBase(name);
    }
  }

  /** The `object` default fires once: building a class again from the bases
      of a built class gives the same class. */
  lemma NewClassStable(name: string, bases: seq<string>)
    ensures NewClass(name, NewClass(name, bases).kind.bases) == NewClass(name, bases)
  {
  }

  lemma ObjectBase(name: string)
    ensures Entry(Class(name, ["object"])) == Ok("class " + name + "(object):")
  {
    assert Join(", ", ["object"]) == "object";
    assert "class " + name + "(" + "object" + "):" == "class " + name + ("(" + "object" + "):");
    assert "(" + "object" + "):" == "(object):";
  }

  /** A definition without parameters has an empty parameter list. */
  lemma DefineWithoutParams(name: string)
    ensures Entry(Define(name, [])) == Ok("def " + name + "():")
  {
    assert Join(", ", []) == "";
    assert "def " + name + "(" + "" + "):" == "def " + name + "():";
  }

  /** A later `returns` replaces an earlier one. */
  lemma ReturnsOverwrites(b: Block, first: string, second: string)
    requires b.kind.Define?
    ensures Returns(Returns(b, first), second) == Returns(b, second)
  {
  }

  /** After `returns(what)` a renderable definition ends with the indented
      `return what`, one line longer unless a return line was already set. */
  lemma ReturnsEndsRendering(b: Block, what: string)
    requires b.kind.Define?
    requires Render(b).Ok?
    ensures Render(Returns(b, what)).Ok?
    ensures var r := Render(Returns(b, what)).value;
      && r[|r| - 1] == Pad + "return " + what
      && |r| == |Render(b).value| + (if b.returnStmnt == "" then 1 else 0)
      && r[..|r| - 1] == Render(b).value[..|Render(b).value| - |ReturnLines(b)|]
  {
    var b' := Returns(b, what);
    assert DocLines(b') == DocLines(b);
  }

  /** A block holding a `Statement` stored by `add_statement` cannot be
      rendered: a concrete block raises the concatenation error, the base
      block still raises `NotImplementedError` first. */
  lemma HeldStatementFails(b: Block, x: Value)
    requires AddStatement(b, x).Done?
    ensures var r := Render(AddStatement(b, x).receiver);
      && r.Err?
      && (b.kind.Base? ==> r.error == NotImplementedError)
      && (!b.kind.Base? ==> r.error == TypeError(ConcatMessage))
  {
    var s := AddStatement(b, x).receiver.statements;
    assert !s[|b.statements|].Line?;
  }

  /** The parent keeps only the child's rendered lines: two children that
      render alike are absorbed alike, whatever else differs between them. */
  lemma AddCodeblockKeepsOnlyLines(b: Block, c: Block, c': Block)
    requires Render(c) == Render(c')
    ensures AddCodeblock(b, BlockValue(c)) == AddCodeblock(b, BlockValue(c'))
  {
  }

  /** Indenting distributes over concatenation. */
  lemma IndentAppend(xs: seq<string>, ys: seq<string>)
    ensures Indent(xs + ys) == Indent(xs) + Indent(ys)
  {
  }

  /** Appending text lines appends their texts. */
  lemma TextsWithLines(ss: seq<Stmt>, ls: seq<string>)
    requires AllLines(ss)
    ensures AllLines(ss + AsLines(ls))
    ensures Texts(ss + AsLines(ls)) == Texts(ss) + ls
  {
    var ss' := ss + AsLines(ls);
    forall i | 0 <= i < |ss'|
      ensures ss'[i].Line?
    {
      if i >= |ss| {
        assert ss'[i] == AsLines(ls)[i - |ss|];
      }
    }
  }

  /** Inserting `mid` after the third of four parts of a sequence. */
  lemma InsertAfter<T>(e: seq<T>, d: seq<T>, st: seq<T>, rt: seq<T>, mid: seq<T>)
    ensures var before := e + d + st + rt;
      var k := |e| + |d| + |st|;
      && k <= |before|
      && before[..k] + mid + before[k..] == e + d + (st + mid) + rt
  {
    var before := e + d + st + rt;
    var k := |e| + |d| + |st|;
    assert before[..k] == e + d + st;
    assert before[k..] == rt;
  }

  /** Appending text lines to a renderable block inserts them, indented, just
      before its return line, leaving every other rendered line in place. */
  lemma RenderWithLines(b: Block, ls: seq<string>)
    requires Render(b).Ok?
    ensures var k := 1 + |DocLines(b)| + |b.statements|;
      var before := Render(b).value;
      && k <= |before|
      && Render(b.(statements := b.statements + AsLines(ls))) == Ok(before[..k] + Indent(ls) + before[k..])
  {
    var b' := b.(statements := b.statements + AsLines(ls));
    TextsWithLines(b.statements, ls);
    var e := [Entry(b.kind).value];
    var d := Indent(DocLines(b));
    var st := Indent(Texts(b.statements));
    var rt := Indent(ReturnLines(b));
    IndentAppend(Texts(b.statements), ls);
    assert DocLines(b') == DocLines(b) && ReturnLines(b') == ReturnLines(b);
    assert Render(b).value == e + d + st + rt;
    assert Render(b').value == e + d + (st + Indent(ls)) + rt;
    InsertAfter(e, d, st, rt, Indent(ls));
  }

  /** Wraps `inner` in the chain of blocks, innermost last, each one absorbing
      the next with `add_codeblock`. */
  function NestAll(chain: seq<Block>, inner: Block): Result<Block>
  {
    if |chain| == 0 then Ok(inner)
    else
      var c := NestAll(chain[1..], inner);
      if c.Err? then c
      else
        var p := AddCodeblock(chain[0], BlockValue(c.value));
        if p.Threw? then Err(p.error) else Ok(p.receiver)
  }

  /** Appended lines that hold a run `depth` blanks deep hold it, in the
      parent's rendering, `outer = depth + 4` blanks deep, after the parent's
      entry, docstring and earlier entries. */
  lemma AppendedRun(b: Block, cl: seq<string>, k: int, depth: nat, outer: nat, lines: seq<string>)
    requires outer == depth + 4
    requires Render(b).Ok?
    requires RunAt(cl, k, Deeper(depth, lines))
    ensures Render(b.(statements := b.statements + AsLines(cl))).Ok?
    ensures RunAt(Render(b.(statements := b.statements + AsLines(cl))).value,
                  1 + |DocLines(b)| + |b.statements| + k, Deeper(outer, lines))
  {
    RenderWithLines(b, cl);
    var n := 1 + |DocLines(b)| + |b.statements|;
    var before := Render(b).value;
    RunIndented(before[..n], cl, before[n..], Render(b.(statements := b.statements + AsLines(cl))).value,
                k, depth, outer, lines);
  }

  /** One more enclosing block indents a run of the child's lines once more. */
  lemma NestStep(b: Block, c: Block, k: int, depth: nat, outer: nat, lines: seq<string>)
    requires outer == depth + 4
    requires Render(b).Ok? && Render(c).Ok?
    requires RunAt(Render(c).value, k, Deeper(depth, lines))
    ensures AddCodeblock(b, BlockValue(c)).Done?
    ensures Render(AddCodeblock(b, BlockValue(c)).receiver).Ok?
    ensures RunAt(Render(AddCodeblock(b, BlockValue(c)).receiver).value,
                  1 + |DocLines(b)| + |b.statements| + k, Deeper(outer, lines))
  {
    var cl := Render(c).value;
    assert AddCodeblock(b, BlockValue(c)) == Done(b.(statements := b.statements + AsLines(cl)));
    AppendedRun(b, cl, k, depth, outer, lines);
  }

  /** Nesting composes additively: when every block in the chain renders,
      the lines of the innermost block reappear, in order and contiguous, in
      the outermost one, with four more leading blanks per enclosing block. */
  lemma {:induction false} NestDepth(chain: seq<Block>, inner: Block)
    requires forall i :: 0 <= i < |chain| ==> Render(chain[i]).Ok?
    requires Render(inner).Ok?
    ensures NestAll(chain, inner).Ok? && Render(NestAll(chain, inner).value).Ok?
    ensures exists k :: RunAt(Render(NestAll(chain, inner).value).value, k,
                              Deeper(4 * |chain|, Render(inner).value))
  {
    var lines := Render(inner).value;
    if |chain| == 0 {
      assert NestAll(chain, inner) == Ok(inner);
      DeeperZero(lines);
      assert 4 * |chain| == 0;
      assert lines[0..|lines|] == lines;
      assert RunAt(Render(inner).value, 0, Deeper(4 * |chain|, lines));
    } else {
      var rest := chain[1..];
      assert forall i :: 0 <= i < |rest| ==> Render(rest[i]).Ok? by {
        forall i | 0 <= i < |rest|
          ensures Render(rest[i]).Ok?
        {
          assert rest[i] == chain[i + 1];
        }
      }
      NestDepth(rest, inner);
      var c := NestAll(rest, inner).value;
      var k :| RunAt(Render(c).value, k, Deeper(4 * |rest|, lines));
      var b := chain[0];
      NestStep(b, c, k, 4 * |rest|, 4 * |chain|, lines);
      var p := AddCodeblock(b, BlockValue(c)).receiver;
      assert NestAll(chain, inner) == Ok(p);
    }
  }
}
