/** `DocString` and its rendering (`DocString.to_lines`).

    The rendered layout carries its own line breaks: the opening line, the
    description line and the last argument line end with a newline character,
    so that joining the lines with newlines leaves a blank line after each of
    them. `Parse` reads a layout back; `ParseLines` and `LinesParse` show that
    the two are inverse, so no two docstrings share a rendering.
 */
module DocStrings {
  import opened Text
  import opened Outcomes

  /** A documentation string; `returnDoc` is the source's `returns`. The
      source's `None` defaults for the description and the return doc are
      falsy exactly as the empty string is, so both are modelled by "". */
  datatype DocString = DocString(name: string, description: string, returnDoc: string, args: seq<string>)

  const Quotes: string := "\"\"\""

  function OpenLine(name: string): string
  {
    Quotes + name + "\n"
  }

  /** One `'    a ():'` line per argument; the last one also ends the section
      with a newline character. */
  function ArgLines(args: seq<string>): (r: seq<string>)
    ensures |r| == |args|
  {
    if |args| == 0 then []
    else if |args| == 1 then [Pad + args[0] + " ():\n"]
    else [Pad + args[0] + " ():"] + ArgLines(args[1..])
  }

  function DescSection(description: string): seq<string>
  {
    if description != "" then [description + "\n"] else []
  }

  function ArgsSection(args: seq<string>): seq<string>
  {
    if |args| > 0 then ["Args:"] + ArgLines(args) else []
  }

  function ReturnsSection(returnDoc: string): seq<string>
  {
    if returnDoc != "" then ["Returns:", Pad + returnDoc + ":"] else []
  }

  /** `DocString.to_lines`. */
  function Lines(d: DocString): (r: seq<string>)
    ensures |r| == 2 + (if d.description != "" then 1 else 0)
                     + (if |d.args| > 0 then 1 + |d.args| else 0)
                     + (if d.returnDoc != "" then 2 else 0)
    ensures r[0] == Quotes + d.name + "\n"
    ensures r[|r| - 1] == Quotes
    ensures d.description != "" ==> r[1] == d.description + "\n"
  {
    [OpenLine(d.name)] + DescSection(d.description) + ArgsSection(d.args)
      + ReturnsSection(d.returnDoc) + [Quotes]
  }

  // ---------------------------------------------------------------------
  // Reading a layout back

  predicate IsOpenLine(s: string)
  {
    |s| >= 4 && s[..3] == Quotes && s[|s| - 1] == '\n'
  }

  /** A description line: a non-empty description followed by a newline. */
  predicate IsDescLine(s: string)
  {
    |s| >= 2 && s[|s| - 1] == '\n'
  }

  /** An argument line other than the last. */
  predicate IsArgLine(s: string)
  {
    |s| >= 8 && s[..4] == Pad && s[|s| - 4..] == " ():"
  }

  predicate IsLastArgLine(s: string)
  {
    |s| >= 9 && s[..4] == Pad && s[|s| - 5..] == " ():\n"
  }

  /** The line under `Returns:`, naming a non-empty return. */
  predicate IsReturnLine(s: string)
  {
    |s| >= 6 && s[..4] == Pad && s[|s| - 1] == ':'
  }

  /** Reads argument lines up to and including the one that ends the section;
      gives the arguments and the lines after the section. */
  function ParseArgs(xs: seq<string>): Option<(seq<string>, seq<string>)>
  {
    if |xs| == 0 then None
    else if IsLastArgLine(xs[0]) then Some(([xs[0][4..|xs[0]| - 5]], xs[1..]))
    else if IsArgLine(xs[0]) then
      var p := ParseArgs(xs[1..]);
      if p.None? then None else Some(([xs[0][4..|xs[0]| - 4]] + p.value.0, p.value.1))
    else None
  }

  function ParseReturns(xs: seq<string>): Option<string>
  {
    if |xs| == 0 then Some("")
    else if |xs| == 2 && xs[0] == "Returns:" && IsReturnLine(xs[1]) then Some(xs[1][4..|xs[1]| - 1])
    else None
  }

  /** Reads the argument and return sections. */
  function ParseSections(xs: seq<string>): Option<(seq<string>, string)>
  {
    if |xs| > 0 && xs[0] == "Args:" then
      var p := ParseArgs(xs[1..]);
      if p.None? then None
      else
        var r := ParseReturns(p.value.1);
        if r.None? then None else Some((p.value.0, r.value))
    else
      var r := ParseReturns(xs);
      if r.None? then None else Some(([], r.value))
  }

  /** Reads the lines between the quotes: the description (or ""), the
      arguments and the return doc. */
  function ParseBody(body: seq<string>): Option<(string, seq<string>, string)>
  {
    if |body| > 0 && IsDescLine(body[0]) then
      var s := ParseSections(body[1..]);
      if s.None? then None else Some((body[0][..|body[0]| - 1], s.value.0, s.value.1))
    else
      var s := ParseSections(body);
      if s.None? then None else Some(("", s.value.0, s.value.1))
  }

  /** The docstring a list of lines renders, if any. */
  function Parse(ls: seq<string>): Option<DocString>
  {
    if |ls| < 2 || !IsOpenLine(ls[0]) || ls[|ls| - 1] != Quotes then None
    else
      var b := ParseBody(ls[1..|ls| - 1]);
      if b.None? then None else Some(DocString(ls[0][3..|ls[0]| - 1], b.value.0, b.value.2, b.value.1))
  }

  // ---------------------------------------------------------------------
  // Single lines: what each recogniser accepts and what it extracts

  lemma OpenLineParts(name: string)
    ensures IsOpenLine(OpenLine(name))
    ensures var s := OpenLine(name); s[3..|s| - 1] == name
  {
    var s := OpenLine(name);
    assert s[..3] == Quotes;
  }

  lemma OpenLineOf(s: string)
    requires IsOpenLine(s)
    ensures s == OpenLine(s[3..|s| - 1])
  {
    assert s == s[..3] + s[3..|s| - 1] + [s[|s| - 1]];
  }

  lemma DescLineOf(t: string)
    requires IsDescLine(t)
    ensures DescSection(t[..|t| - 1]) == [t]
  {
    assert t == t[..|t| - 1] + [t[|t| - 1]];
  }

  lemma ArgLineParts(a: string)
    ensures var s := Pad + a + " ():";
      IsArgLine(s) && !IsLastArgLine(s) && s[4..|s| - 4] == a
  {
    var s := Pad + a + " ():";
    assert s[..4] == Pad;
    assert s[|s| - 4..] == " ():";
    assert s[|s| - 1] == ':';
  }

  lemma LastArgLineParts(a: string)
    ensures var s := Pad + a + " ():\n";
      IsLastArgLine(s) && s[4..|s| - 5] == a
  {
    var s := Pad + a + " ():\n";
    assert s[..4] == Pad;
    assert s[|s| - 5..] == " ():\n";
  }

  lemma ArgLineOf(s: string)
    requires IsArgLine(s)
    ensures s == Pad + s[4..|s| - 4] + " ():"
  {
    assert s == s[..4] + s[4..|s| - 4] + s[|s| - 4..];
  }

  lemma LastArgLineOf(s: string)
    requires IsLastArgLine(s)
    ensures s == Pad + s[4..|s| - 5] + " ():\n"
  {
    assert s == s[..4] + s[4..|s| - 5] + s[|s| - 5..];
  }

  lemma ReturnLineParts(r: string)
    requires r != ""
    ensures var s := Pad + r + ":";
      IsReturnLine(s) && s[4..|s| - 1] == r
  {
    var s := Pad + r + ":";
    assert s[..4] == Pad;
  }

  lemma ReturnLineOf(s: string)
    requires IsReturnLine(s)
    ensures s == Pad + s[4..|s| - 1] + ":"
  {
    assert s == s[..4] + s[4..|s| - 1] + [s[|s| - 1]];
  }

  /** Every argument gets its own line, in order; only the last one ends
      with a newline character. */
  lemma {:induction false} ArgLinesAt(args: seq<string>, i: int)
    requires 0 <= i < |args|
    ensures i < |args| - 1 ==> ArgLines(args)[i] == Pad + args[i] + " ():"
    ensures i == |args| - 1 ==> ArgLines(args)[i] == Pad + args[i] + " ():\n"
  {
    if i > 0 {
      ArgLinesAt(args[1..], i - 1);
      assert args[1..][i - 1] == args[i];
    }
  }

  /** `ArgLines` on two or more arguments: the first line, then the rest. */
  lemma ArgLinesCons(a: string, rest: seq<string>)
    requires |rest| > 0
    ensures ArgLines([a] + rest) == [Pad + a + " ():"] + ArgLines(rest)
  {
    assert ([a] + rest)[1..] == rest;
  }

  // ---------------------------------------------------------------------
  // Rendering then reading gives the docstring back

  lemma {:induction false} ParseArgLines(args: seq<string>, rest: seq<string>)
    requires |args| > 0
    ensures ParseArgs(ArgLines(args) + rest) == Some((args, rest))
  {
    var xs := ArgLines(args) + rest;
    var a := args[0];
    if |args| == 1 {
      LastArgLineParts(a);
      assert xs == [Pad + a + " ():\n"] + rest;
      assert xs[1..] == rest;
      assert [a] == args;
    } else {
      ArgLineParts(a);
      assert args == [a] + args[1..];
      ArgLinesCons(a, args[1..]);
      assert xs == [Pad + a + " ():"] + (ArgLines(args[1..]) + rest);
      assert xs[1..] == ArgLines(args[1..]) + rest;
      ParseArgLines(args[1..], rest);
    }
  }

  lemma ParseReturnsSection(returnDoc: string)
    ensures ParseReturns(ReturnsSection(returnDoc)) == Some(returnDoc)
  {
    if returnDoc != "" {
      ReturnLineParts(returnDoc);
    }
  }

  lemma ParseSectionsOf(args: seq<string>, returnDoc: string)
    ensures ParseSections(ArgsSection(args) + ReturnsSection(returnDoc)) == Some((args, returnDoc))
  {
    var rs := ReturnsSection(returnDoc);
    var xs := ArgsSection(args) + rs;
    ParseReturnsSection(returnDoc);
    if |args| > 0 {
      assert xs == ["Args:"] + (ArgLines(args) + rs);
      assert xs[1..] == ArgLines(args) + rs;
      ParseArgLines(args, rs);
    } else {
      assert xs == rs;
      assert |rs| > 0 ==> rs[0] == "Returns:";
    }
  }

  lemma ParseBodyOf(description: string, args: seq<string>, returnDoc: string)
    ensures ParseBody(DescSection(description) + ArgsSection(args) + ReturnsSection(returnDoc))
         == Some((description, args, returnDoc))
  {
    var tail := ArgsSection(args) + ReturnsSection(returnDoc);
    var body := DescSection(description) + ArgsSection(args) + ReturnsSection(returnDoc);
    ParseSectionsOf(args, returnDoc);
    if description != "" {
      var t := description + "\n";
      assert body == [t] + tail;
      assert body[0] == t && body[1..] == tail;
      assert IsDescLine(t) && t[..|t| - 1] == description;
    } else {
      assert body == tail;
      NoDescLine(args, returnDoc);
    }
  }

  /** Without a description the sections start with a header, never with
      something read as a description line. */
  lemma NoDescLine(args: seq<string>, returnDoc: string)
    ensures var tail := ArgsSection(args) + ReturnsSection(returnDoc);
      |tail| > 0 ==> !IsDescLine(tail[0])
  {
    var tail := ArgsSection(args) + ReturnsSection(returnDoc);
    if |args| > 0 {
      assert tail[0] == "Args:";
    } else if returnDoc != "" {
      assert tail[0] == "Returns:";
    }
  }

  /** The frame of quotes around a readable body. */
  lemma ParseFramed(name: string, body: seq<string>)
    requires ParseBody(body).Some?
    ensures var b := ParseBody(body).value;
      Parse([OpenLine(name)] + body + [Quotes]) == Some(DocString(name, b.0, b.2, b.1))
  {
    var ls := [OpenLine(name)] + body + [Quotes];
    assert ls[0] == OpenLine(name) && ls[|ls| - 1] == Quotes;
    assert ls[1..|ls| - 1] == body;
    OpenLineParts(name);
  }

  /** Every docstring is read back from its rendering. */
  lemma ParseLines(d: DocString)
    ensures Parse(Lines(d)) == Some(d)
  {
    var o := OpenLine(d.name);
    var ds, ars, rs := DescSection(d.description), ArgsSection(d.args), ReturnsSection(d.returnDoc);
    assert Lines(d) == [o] + (ds + ars + rs) + [Quotes];
    ParseBodyOf(d.description, d.args, d.returnDoc);
    ParseFramed(d.name, ds + ars + rs);
  }

  // ---------------------------------------------------------------------
  // Reading succeeds only on renderings

  lemma {:induction false} ParseArgsSound(xs: seq<string>)
    requires ParseArgs(xs).Some?
    ensures |ParseArgs(xs).value.0| > 0
    ensures xs == ArgLines(ParseArgs(xs).value.0) + ParseArgs(xs).value.1
  {
    var s := xs[0];
    assert xs == [s] + xs[1..];
    if IsLastArgLine(s) {
      LastArgLineOf(s);
    } else {
      var a := s[4..|s| - 4];
      ArgLineOf(s);
      ParseArgsSound(xs[1..]);
      var p := ParseArgs(xs[1..]).value;
      assert ParseArgs(xs).value == ([a] + p.0, p.1);
      ArgLinesCons(a, p.0);
    }
  }

  lemma ParseReturnsSound(xs: seq<string>)
    requires ParseReturns(xs).Some?
    ensures xs == ReturnsSection(ParseReturns(xs).value)
  {
    if |xs| > 0 {
      ReturnLineOf(xs[1]);
      assert xs == ["Returns:", xs[1]];
    }
  }

  lemma ParseSectionsSound(xs: seq<string>)
    requires ParseSections(xs).Some?
    ensures xs == ArgsSection(ParseSections(xs).value.0) + ReturnsSection(ParseSections(xs).value.1)
  {
    if |xs| > 0 && xs[0] == "Args:" {
      var p := ParseArgs(xs[1..]).value;
      ParseArgsSound(xs[1..]);
      ParseReturnsSound(p.1);
      assert ParseSections(xs).value == (p.0, ParseReturns(p.1).value);
      assert xs == ["Args:"] + xs[1..];
    } else {
      ParseReturnsSound(xs);
    }
  }

  lemma ParseBodySound(body: seq<string>)
    requires ParseBody(body).Some?
    ensures var b := ParseBody(body).value;
      body == DescSection(b.0) + ArgsSection(b.1) + ReturnsSection(b.2)
  {
    if |body| > 0 && IsDescLine(body[0]) {
      var t := body[0];
      DescLineOf(t);
      ParseSectionsSound(body[1..]);
      assert body == [t] + body[1..];
    } else {
      ParseSectionsSound(body);
    }
  }

  /** Whatever `Parse` accepts is exactly the rendering of what it returns. */
  lemma LinesParse(ls: seq<string>)
    requires Parse(ls).Some?
    ensures Lines(Parse(ls).value) == ls
  {
    var d := Parse(ls).value;
    var body := ls[1..|ls| - 1];
    var b := ParseBody(body).value;
    assert d == DocString(ls[0][3..|ls[0]| - 1], b.0, b.2, b.1);
    OpenLineOf(ls[0]);
    ParseBodySound(body);
    assert ls == [ls[0]] + body + [Quotes];
  }
}
