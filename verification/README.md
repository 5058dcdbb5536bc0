# pypoet in Dafny

pypoet is "Python to write Python". A program builds a tree of code blocks:
statements, `if`/`elif`/`else`, `for` and `while` loops, function
definitions and classes. It adds docstrings and nested blocks to them,
collects them in a `PythonFile` and writes that file out. The source then
hands the file to the yapf formatter.

This project models that library as pure functions over immutable values:

- `outcomes.dfy` (`Outcomes`) holds the exceptions the library raises, as
  `Error`. A mutator returns `Step`: either `Done(receiver)` or
  `Threw(error, receiver)`, the second with the receiver unchanged.
  `Result` stands for a value or an exception.
- `text.dfy` (`Text`) holds the string helpers: four-blank indentation,
  Python's `sep.join` (`Join`), plain concatenation (`Concat`), and the
  laws about them that the proofs use.
- `docstrings.dfy` (`DocStrings`) models `DocString` and its
  `to_lines`. It also has a reader, `Parse`, with proofs that rendering and
  reading are inverse. Two different docstrings therefore never render
  alike.
- `blocks.dfy` (`Blocks`) models `CodeBlock` and its eight subclasses as
  one `Block` datatype with a `Variant` tag. It covers the entry line of
  each variant, `to_lines` (`Render`), `add_docstring`, `add_statement`,
  `add_codeblock` and `Define.returns`.
- `block_laws.dfy` (`BlockLaws`) states laws that span several calls:
  - the headers of `if`, `elif`, `else` and `while` identify their
    construct;
  - `returns` overwrites;
  - a stored `Statement` makes rendering fail;
  - a nested block's lines reappear four blanks deeper per enclosing
    block.
- `pythonfile.dfy` (`PythonFiles`) models `PythonFile`: `add_docstring`,
  `append`, and the raw text `write` produces before the formatter runs.
  That includes the text already written when rendering a block raises
  part-way.
- `scenarios.dfy` (`Scenarios`) restates the repository's unit tests as
  lemmas about the model, plus one nesting case built from
  `add_codeblock`.

Modelling choices:

- The source lets the description, the return doc and the return statement
  default to `None`. It tests all three for truthiness, and `None` and `""`
  are both falsy. Each is modelled as a string, with `""` meaning unset.
- A `DocString` object is always truthy, so a block's or a file's
  docstring is an `Option`.
- Python's `isinstance` checks are modelled by the tag of the argument:
  `Value` is `DocValue`, `BlockValue` or `OtherValue`.
- `add_statement` stores the `Statement` object itself. When `to_lines`
  later computes `'    ' + stmnt` for it, Python raises a `TypeError`. The
  model keeps such an entry as `HeldStatement`, and `Render` fails with
  that error.
- `add_codeblock` stores the child's rendered lines, so a later change to
  the child does not reach the parent.

## Model

| member | source | states |
|---|---|---|
| `Blocks.Entry` | pypoet/pypoet.py:32-37 | The entry line is missing exactly for the base block, which raises `NotImplementedError`. Every subclass has one, and a statement's entry line is its own text. |
| `Blocks.RenderStatements` | pypoet/pypoet.py:90-91 | The statement loop succeeds exactly when every stored entry is a text line, and yields those texts each prefixed with four blanks. A stored `Statement` raises the string-concatenation `TypeError`. |
| `Blocks.Render` | pypoet/pypoet.py:81-94 | `to_lines` succeeds exactly when the block is not the base block and holds only text lines. Otherwise the base block raises `NotImplementedError` first, and a concrete block holding a stored `Statement` raises the concatenation `TypeError`. |
| `Blocks.RenderShape` | pypoet/pypoet.py:87-94 | A rendered block is its entry line, then the docstring's lines, the stored texts and the return line, each prefixed with four blanks. It has one line per part, and the return line, when set, comes last. |
| `Blocks.AddDocstring` | pypoet/pypoet.py:39-51 | Accepts exactly a `DocString` and sets it, touching nothing else. Any other value raises `TypeError` with the source's message and leaves the block as it was. |
| `Blocks.AddStatement` | pypoet/pypoet.py:53-65 | Accepts exactly a `Statement` block and appends it, the block itself, after the existing entries, which stay untouched. Anything else raises `TypeError` and changes nothing. |
| `Blocks.AddCodeblock` | pypoet/pypoet.py:67-79 | Accepts exactly a block that can be rendered and appends its rendered lines as text. A non-block raises `TypeError`. A block that cannot render propagates its own exception. In both failure cases the receiver is unchanged. |
| `Blocks.Returns` | pypoet/pypoet.py:285-295 | Sets the return line to `return what` and leaves kind, docstring and statements as they were. |
| `DocStrings.ArgLinesAt` | pypoet/pypoet.py:128-132 | Argument `i` gets line `i`, `    a ():`. Only the last line also carries the newline appended after the loop. |
| `DocStrings.Lines` | pypoet/pypoet.py:119-137 | The docstring's line count: one opening line, an optional description, an optional `Args:` header with one line per argument, two optional return lines, and the closing quotes. The opening line is `"""name` plus a newline. The description line ends with a newline. |
| `DocStrings.ParseLines` | pypoet/pypoet.py:119-137 | Every docstring is recovered from its lines. Rendering is therefore injective: no information is lost. |
| `DocStrings.LinesParse` | pypoet/pypoet.py:119-137 | Whatever the reader accepts is exactly the rendering of the docstring it returns, so the reader and `to_lines` are inverse in both directions. |
| `BlockLaws.EntryShape` | pypoet/pypoet.py:173-318 | The entry line of every compound construct starts with its keyword and ends with the colon that opens its suite. |
| `BlockLaws.EntryDeterminesVariant` | pypoet/pypoet.py:173-260 | Between compound constructs (every variant except the base block and `Statement`), equal entry lines mean the same keyword. For `if`, `elif`, `else` and `while`, equal entry lines mean the same construct with the same expression. |
| `Blocks.NewClass` | pypoet/pypoet.py:301-310 | A class built from a name and bases keeps that name, always has at least one base, keeps the given bases when there are any, and starts with no docstring, statements or return line. |
| `BlockLaws.NewClassStable` | pypoet/pypoet.py:310 | The `object` default applies once: building a class again from a built class's bases gives the same class. |
| `BlockLaws.ClassBases` | pypoet/pypoet.py:301-318 | A class given no bases derives from `object`. A class given bases lists exactly those. |
| `BlockLaws.DefineWithoutParams` | pypoet/pypoet.py:277-283 | A definition without parameters renders `def name():`. |
| `BlockLaws.ReturnsOverwrites` | pypoet/pypoet.py:285-295 | A second `returns` replaces the first. |
| `BlockLaws.ReturnsEndsRendering` | pypoet/pypoet.py:92-93 | After `returns(what)`, a definition that renders ends with the indented `return what`. It grows by one line unless a return line was already set, and every earlier line stays the same. |
| `BlockLaws.HeldStatementFails` | pypoet/pypoet.py:53-94 | Once `add_statement` succeeds, the block can no longer be rendered. The base block still raises `NotImplementedError`; every other block raises the concatenation `TypeError`. |
| `BlockLaws.AddCodeblockKeepsOnlyLines` | pypoet/pypoet.py:76-78 | The parent keeps only the child's rendered lines. Two children that render alike are absorbed alike. |
| `BlockLaws.AppendedRun` | pypoet/pypoet.py:78-94 | Lines appended to a block that renders hold any run they contained, four blanks deeper, right after the parent's entry line, docstring and earlier entries. |
| `BlockLaws.NestStep` | pypoet/pypoet.py:67-94 | `add_codeblock` of a child that renders succeeds. The parent renders, and holds the child's runs one indentation level deeper. |
| `BlockLaws.RenderWithLines` | pypoet/pypoet.py:78-94 | Absorbing lines inserts them, indented, just before the return line. Every other rendered line stays in place. |
| `BlockLaws.NestDepth` | pypoet/pypoet.py:67-94 | When every block in a chain renders, nesting each into the one before succeeds. The innermost block's lines then appear, contiguous and in order, in the outermost rendering, four blanks deeper per enclosing block. |
| `PythonFiles.AddDocstring` | pypoet/pypoet.py:329-341 | Accepts exactly a `DocString` and sets it, keeping the blocks. Anything else raises `TypeError` and changes nothing. |
| `PythonFiles.Append` | pypoet/pypoet.py:343-355 | Accepts any code block, even one that cannot render, and appends it after the existing ones, keeping the docstring. A non-block raises `TypeError` and changes nothing. |
| `PythonFiles.WriteBlocks` | pypoet/pypoet.py:369-371 | The block loop of `write` completes exactly when every block renders. It then writes each block as a blank line plus its newline-joined lines, then one final newline. Otherwise it stops at the first block that fails, with that block's exception, after writing the chunks of the blocks before it. |
| `PythonFiles.WriteText` | pypoet/pypoet.py:363-371 | The whole raw file is the docstring's lines run together, or `"""filename."""` when there is none, followed by the block loop. |
| `PythonFiles.WriteFresh` | pypoet/pypoet.py:363-371 | A new, empty file writes `"""filename."""` and a newline. |
| `PythonFiles.WriteAfterAppend` | pypoet/pypoet.py:343-371 | Appending a block that renders adds exactly its chunk before the final newline. Appending one that cannot render makes `write` raise its exception after everything but that final newline. |
| `Scenarios.DocStringExample` | tests/test_pypoet.py:61-79 | The docstring with description, two arguments and a return doc renders the eight expected lines. |
| `Scenarios.EntryExamples` | tests/test_pypoet.py:84-107 | The base block, statement, `if`, `elif` and `else` entry lines of the tests. |
| `Scenarios.LoopEntryExamples` | tests/test_pypoet.py:110-121 | The `for` and `while` entry lines of the tests. |
| `Scenarios.DefineEntryExample` | tests/test_pypoet.py:124-128 | `Define('add_cat', 'cat_name', 'cat_length', 'alive=True')` gives `def add_cat(cat_name, cat_length, alive=True):`. |
| `Scenarios.ReturnsExample` | tests/test_pypoet.py:130-132 | `Define('cat_face').returns("':3'")` sets `return ':3'`. |
| `Scenarios.ClassEntryExample` | tests/test_pypoet.py:135-139 | `Class('Cat', 'DomesticMammal')` gives `class Cat(DomesticMammal):`. |
| `Scenarios.BaseBlockExamples` | tests/test_pypoet.py:8-56 | The base block cannot be rendered or absorbed. It still accepts a docstring and a statement. Wrong-typed arguments raise `TypeError`. |
| `Scenarios.PythonFileExamples` | tests/test_pypoet.py:142-164 | A file takes a docstring and a block and refuses other values, staying as it was. |
| `Scenarios.NestingExample` | pypoet/pypoet.py:67-94 | A statement in an `if` in a `def` renders as `def f():`, `    if x:`, `        y`. |
| `Scenarios.IfExample` | pypoet/pypoet.py:67-94 | `if x` absorbing the statement `y` stores the line `y` and renders `if x:` over `    y`. |
| `Scenarios.DefineIfExample` | pypoet/pypoet.py:67-94 | `def f()` absorbing that `if` stores its two lines and renders three, the innermost eight blanks deep. |
| `Scenarios.WriteExample` | tests/test_pypoet.py:166-179 | The raw text written for the test's file, before formatting, is the docstring, a blank line, `bar = 5`, a blank line, the definition with its return line, and a final newline. |

## Left out

- Formatting with yapf (pypoet/pypoet.py:372) is an external program. `write` is modelled up to the raw text it produces. The test's expected file shows yapf's output, which has two blank lines before the definition where the raw text has one.
- File I/O: the file is not opened, created or removed. `WriteText` returns the text and, on an exception, the part already written.
- `pypi` (pypoet/pypoet.py:375-402) only creates directories and files with fixed contents, so it is all I/O.
- setup.py only installs the library.
- `pypoet/__init__.py` (lines 1-4) re-exports the classes, but it also imports a `Module` that pypoet/pypoet.py does not define, and it does not export `PythonFile`. The model takes the classes from pypoet/pypoet.py as written and does not invent `Module`.
- Without a docstring, `write` emits `"""filename."""` (pypoet/pypoet.py:368); pypoet/pypoet.py has no module class that supplies a default docstring, so none is modelled.
- `DocString.to_lines` marks section breaks by ending the opening line, the description line and the last argument line with `'\n'` (pypoet/pypoet.py:125-132); there are no separate blank lines, and `Lines` renders the same way.
- Blocks.Entry: its contract states only when it fails and the statement case. The header shapes of the other variants are stated by `BlockLaws.EntryShape`, `BlockLaws.EntryDeterminesVariant`, `BlockLaws.ClassBases`, `BlockLaws.DefineWithoutParams` and the entry-line scenarios.
- PythonFiles.Append: the source stores a reference to the block, so later changes to the block show up when the file is written. The model stores the block's value at the time of the call.
- Blocks.Returns: only `Define` has this method, so it requires a `Define` block. Calling it on another block is an `AttributeError` in Python, and that is not modelled.
- Blocks.ConcatMessage: the wording of the concatenation `TypeError` comes from the interpreter and varies between Python versions. The model uses one fixed wording.
- Arguments are strings: the model does not cover non-string values given to `%` formatting or `join`, which Python would convert or reject.
