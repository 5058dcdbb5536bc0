/** Concrete cases taken from the repository's unit tests, plus one nesting
    case built from `add_codeblock`, stated against the model. `write` is stated up to the raw text,
    before the external formatter rewrites it. */
module Scenarios {
  import opened Text
  import opened Outcomes
  import DocStrings
  import opened Blocks
  import BlockLaws
  import PythonFiles

  /** A docstring with a description, a return doc and two arguments. */
  lemma DocStringExample()
    ensures DocStrings.Lines(DocStrings.DocString("docstring", "this is a docstring", "str", ["arg1", "arg2"]))
         == ["\"\"\"docstring\n", "this is a docstring\n", "Args:", "    arg1 ():", "    arg2 ():\n",
             "Returns:", "    str:", "\"\"\""]
  {
    var d := DocStrings.DocString("docstring", "this is a docstring", "str", ["arg1", "arg2"]);
    assert d.args[1..] == ["arg2"];
    assert Pad + "arg1" + " ():" == "    arg1 ():";
    assert Pad + "arg2" + " ():\n" == "    arg2 ():\n";
    assert DocStrings.ArgLines(d.args) == ["    arg1 ():", "    arg2 ():\n"];
    assert DocStrings.OpenLine("docstring") == "\"\"\"docstring\n";
    assert "this is a docstring" + "\n" == "this is a docstring\n";
    assert Pad + "str" + ":" == "    str:";
  }

  /** The entry line of the simple variants, on the test suite's arguments. */
  lemma EntryExamples()
    ensures Entry(Base) == Err(NotImplementedError)
    ensures Entry(Statement("print(\"CATS\")")) == Ok("print(\"CATS\")")
    ensures Entry(If("x == 5")) == Ok("if x == 5:")
    ensures Entry(ElIf("x == 6")) == Ok("elif x == 6:")
    ensures Entry(Else) == Ok("else:")
  {
    assert "if " + "x == 5" + ":" == "if x == 5:";
    assert "elif " + "x == 6" + ":" == "elif x == 6:";
  }

  /** The entry lines of the two loops. */
  lemma LoopEntryExamples()
    ensures Entry(ForLoop("cat", "cats")) == Ok("for cat in cats:")
    ensures Entry(WhileLoop("len(cats) > 100")) == Ok("while len(cats) > 100:")
  {
    assert "for " + "cat" + " in " + "cats" + ":" == "for cat in cats:";
    assert "while " + "len(cats) > 100" + ":" == "while len(cats) > 100:";
  }

  /** A definition lists its parameters separated by commas. */
  lemma DefineEntryExample()
    ensures Entry(Define("add_cat", ["cat_name", "cat_length", "alive=True"]))
         == Ok("def add_cat(cat_name, cat_length, alive=True):")
  {
    JoinTriple(", ", "cat_name", "cat_length", "alive=True");
    AddCatParams();
    AddCatHeader();
  }

  lemma AddCatParams()
    ensures "cat_name" + ", " + "cat_length" + ", " + "alive=True" == "cat_name, cat_length, alive=True"
  {
  }

  lemma AddCatHeader()
    ensures "def " + "add_cat" + "(" + "cat_name, cat_length, alive=True" + "):"
         == "def add_cat(cat_name, cat_length, alive=True):"
  {
  }

  /** A class given a base names it. */
  lemma ClassEntryExample()
    ensures Entry(NewClass("Cat", ["DomesticMammal"]).kind) == Ok("class Cat(DomesticMammal):")
  {
    assert Join(", ", ["DomesticMammal"]) == "DomesticMammal";
    assert "class " + "Cat" + "(" + "DomesticMammal" + "):" == "class Cat(DomesticMammal):";
  }

  /** `Define('cat_face').returns("':3'")` sets the return line. */
  lemma ReturnsExample()
    ensures Returns(New(Define("cat_face", [])), "':3'").returnStmnt == "return ':3'"
  {
    assert "return " + "':3'" == "return ':3'";
  }

  /** The base block: it cannot be rendered nor absorbed, yet it accepts a
      docstring and a statement; wrong-typed arguments raise `TypeError`. */
  lemma BaseBlockExamples(doc: DocStrings.DocString)
    ensures Render(New(Base)) == Err(NotImplementedError)
    ensures AddCodeblock(New(Base), BlockValue(New(Base))) == Threw(NotImplementedError, New(Base))
    ensures AddDocstring(New(Base), DocValue(doc)) == Done(Block(Base, Some(doc), [], ""))
    ensures AddDocstring(New(Base), OtherValue) == Threw(TypeError(DocstringTypeMessage), New(Base))
    ensures var s := New(Statement("print(\"cats\")"));
      && AddStatement(New(Base), BlockValue(s)) == Done(Block(Base, None, [HeldStatement(s)], ""))
      && AddStatement(New(Base), OtherValue) == Threw(TypeError(StatementTypeMessage), New(Base))
  {
  }

  /** A block with only text lines and nothing else renders as its entry
      line over those lines, indented. */
  lemma RenderPlain(kind: Variant, texts: seq<string>)
    requires !kind.Base?
    ensures Render(Block(kind, None, AsLines(texts), "")) == Ok([Entry(kind).value] + Indent(texts))
  {
    var b := Block(kind, None, AsLines(texts), "");
    assert DocLines(b) == [] && ReturnLines(b) == [];
    assert Indent([]) == [];
    assert AllLines(b.statements);
    assert Texts(b.statements) == texts;
    var r := Render(b);
    assert r.Ok?;
    assert r.value == [Entry(kind).value] + Indent([]) + Indent(texts) + Indent([]);
    assert [Entry(kind).value] + [] + Indent(texts) + [] == [Entry(kind).value] + Indent(texts);
  }

  /** A statement inside an `if` inside a `def`: the innermost line sits eight
      blanks deep. */
  lemma NestingExample()
    ensures BlockLaws.NestAll([New(Define("f", [])), New(If("x"))], New(Statement("y"))).Ok?
    ensures Render(BlockLaws.NestAll([New(Define("f", [])), New(If("x"))], New(Statement("y"))).value)
         == Ok(["def f():", "    if x:", "        y"])
  {
    var inner := New(Statement("y"));
    var mid := New(If("x"));
    var outer := New(Define("f", []));
    IfExample();
    var m := Block(If("x"), None, AsLines(["y"]), "");
    assert BlockLaws.NestAll([mid], inner) == Ok(m) by {
      assert [mid][1..] == [];
    }
    DefineIfExample();
    var o := Block(Define("f", []), None, AsLines(["if x:", "    y"]), "");
    assert [outer, mid][1..] == [mid];
    assert BlockLaws.NestAll([outer, mid], inner) == Ok(o);
  }

  /** The statement `y` absorbed by `if x`. */
  lemma IfExample()
    ensures AddCodeblock(New(If("x")), BlockValue(New(Statement("y"))))
         == Done(Block(If("x"), None, AsLines(["y"]), ""))
    ensures Render(Block(If("x"), None, AsLines(["y"]), "")) == Ok(["if x:", "    y"])
  {
    var inner := New(Statement("y"));
    RenderPlain(Statement("y"), []);
    assert AsLines([]) == [];
    assert inner == Block(Statement("y"), None, AsLines([]), "");
    assert Indent([]) == [];
    assert [Entry(Statement("y")).value] + Indent([]) == ["y"];
    assert Render(inner) == Ok(["y"]);
    RenderPlain(If("x"), ["y"]);
    assert "if " + "x" + ":" == "if x:";
    assert Indent(["y"])[0] == Pad + "y";
    assert Pad + "y" == "    y";
    assert [Entry(If("x")).value] + Indent(["y"]) == ["if x:", "    y"];
  }

  /** The rendered `if x` absorbed by `def f()`. */
  lemma DefineIfExample()
    ensures AddCodeblock(New(Define("f", [])), BlockValue(Block(If("x"), None, AsLines(["y"]), "")))
         == Done(Block(Define("f", []), None, AsLines(["if x:", "    y"]), ""))
    ensures Render(Block(Define("f", []), None, AsLines(["if x:", "    y"]), ""))
         == Ok(["def f():", "    if x:", "        y"])
  {
    IfExample();
    assert Join(", ", []) == "";
    assert "def " + "f" + "(" + "" + "):" == "def f():";
    RenderPlain(Define("f", []), ["if x:", "    y"]);
    assert Indent(["if x:", "    y"])[0] == Pad + "if x:";
    assert Indent(["if x:", "    y"])[1] == Pad + "    y";
    assert Pad + "if x:" == "    if x:";
    assert Pad + "    y" == "        y";
    assert [Entry(Define("f", [])).value] + Indent(["if x:", "    y"]) == ["def f():", "    if x:", "        y"];
  }

  /** A file takes a docstring and a block and refuses other values, leaving
      itself as it was. */
  lemma PythonFileExamples()
    ensures var doc := DocStrings.DocString("doc", "sample", "", []);
      && PythonFiles.AddDocstring(PythonFiles.Fresh, DocValue(doc)).receiver.docstring == Some(doc)
      && PythonFiles.AddDocstring(PythonFiles.Fresh, OtherValue)
         == Threw(TypeError(DocstringTypeMessage), PythonFiles.Fresh)
    ensures var d := Returns(New(Define("count_cats", [])), "5");
      && PythonFiles.Append(PythonFiles.Fresh, BlockValue(d)).receiver.codeblocks == [d]
      && PythonFiles.Append(PythonFiles.Fresh, OtherValue)
         == Threw(TypeError(CodeblockTypeMessage), PythonFiles.Fresh)
  {
  }

  /** The file of the `write` test, before formatting: the docstring's lines
      run together, a blank line and the statement, a blank line and the
      definition, and a final newline. */
  lemma WriteExample()
    ensures var doc := DocStrings.DocString("doc", "sample", "", []);
      var f := PythonFiles.PythonFile(Some(doc), [New(Statement("bar = 5")), Returns(New(Define("foo", [])), "bar")]);
      PythonFiles.WriteText(f, "tmp.py")
        == PythonFiles.Written("\"\"\"doc\nsample\n\"\"\"" + "\n\nbar = 5" + "\n\ndef foo():\n    return bar" + "\n")
  {
    var doc := DocStrings.DocString("doc", "sample", "", []);
    var f := PythonFiles.PythonFile(Some(doc), [New(Statement("bar = 5")), Returns(New(Define("foo", [])), "bar")]);
    DocHeaderExample();
    WriteChunksExample();
    ConcatPair("\n\nbar = 5", "\n\ndef foo():\n    return bar");
    assert "\"\"\"doc\nsample\n\"\"\"" + "\n\nbar = 5" + "\n\ndef foo():\n    return bar"
        == "\"\"\"doc\nsample\n\"\"\"" + ("\n\nbar = 5" + "\n\ndef foo():\n    return bar");
  }

  /** The two blocks of the `write` test, each rendered and joined into the
      chunk `write` emits for it. */
  lemma WriteChunksExample()
    ensures var bs := [New(Statement("bar = 5")), Returns(New(Define("foo", [])), "bar")];
      && PythonFiles.AllRender(bs)
      && PythonFiles.Chunks(bs) == ["\n\nbar = 5", "\n\ndef foo():\n    return bar"]
  {
    var bs := [New(Statement("bar = 5")), Returns(New(Define("foo", [])), "bar")];
    StatementChunkExample();
    DefineChunkExample();
    assert PythonFiles.AllRender(bs);
    assert PythonFiles.Chunks(bs)[0] == "\n\nbar = 5";
    assert PythonFiles.Chunks(bs)[1] == "\n\ndef foo():\n    return bar";
  }

  lemma StatementChunkExample()
    ensures Render(New(Statement("bar = 5"))).Ok?
    ensures PythonFiles.Chunk(Render(New(Statement("bar = 5"))).value) == "\n\nbar = 5"
  {
    StatementExample();
    assert Join("\n", ["bar = 5"]) == "bar = 5";
  }

  lemma DefineChunkExample()
    ensures Render(Returns(New(Define("foo", [])), "bar")).Ok?
    ensures PythonFiles.Chunk(Render(Returns(New(Define("foo", [])), "bar")).value)
         == "\n\ndef foo():\n    return bar"
  {
    DefineFooExample();
    JoinPair("\n", "def foo():", "    return bar");
    FooChunkText();
  }

  lemma FooChunkText()
    ensures "\n\n" + ("def foo():" + "\n" + "    return bar") == "\n\ndef foo():\n    return bar"
  {
  }

  /** A lone statement renders as its text. */
  lemma StatementExample()
    ensures Render(New(Statement("bar = 5"))) == Ok(["bar = 5"])
  {
    var s := New(Statement("bar = 5"));
    RenderPlain(Statement("bar = 5"), []);
    assert AsLines([]) == [];
    assert s == Block(Statement("bar = 5"), None, AsLines([]), "");
    assert Indent([]) == [];
    assert [Entry(Statement("bar = 5")).value] + Indent([]) == ["bar = 5"];
  }

  lemma DocHeaderExample()
    ensures Concat(DocStrings.Lines(DocStrings.DocString("doc", "sample", "", [])))
         == "\"\"\"doc\nsample\n\"\"\""
  {
    var doc := DocStrings.DocString("doc", "sample", "", []);
    var l0 := "\"\"\"doc\n";
    var l1 := "sample\n";
    var l2 := "\"\"\"";
    assert DocStrings.OpenLine("doc") == l0;
    assert "sample" + "\n" == l1;
    assert DocStrings.Lines(doc) == [l0, l1, l2];
    assert [l0, l1, l2][1..] == [l1, l2];
    assert [l1, l2][1..] == [l2];
    assert Concat([l2]) == l2 + Concat([]);
    assert Concat([l0, l1, l2]) == l0 + (l1 + l2);
  }

  lemma DefineFooExample()
    ensures Render(Returns(New(Define("foo", [])), "bar")) == Ok(["def foo():", "    return bar"])
  {
    var d := Returns(New(Define("foo", [])), "bar");
    assert "return " + "bar" == "return bar";
    assert DocLines(d) == [] && ReturnLines(d) == ["return bar"];
    assert AllLines(d.statements);
    assert Texts(d.statements) == [];
    assert Indent([]) == [];
    assert Join(", ", []) == "";
    assert "def " + "foo" + "(" + "" + "):" == "def foo():";
    assert Pad + "return bar" == "    return bar";
    assert Indent(["return bar"])[0] == Pad + "return bar";
    assert Indent(["return bar"]) == ["    return bar"];
    assert Entry(Define("foo", [])).value == "def foo():";
    var r := Render(d);
    assert r.Ok?;
    assert r.value == ["def foo():"] + Indent([]) + Indent([]) + Indent(["return bar"]);
    assert ["def foo():"] + [] + [] + ["    return bar"] == ["def foo():", "    return bar"];
  }
}
