/** `PythonFile`: a module-level docstring, the appended blocks, and the raw
    text `write` puts into the file before the external formatter runs. */
module PythonFiles {
  import opened Text
  import opened Outcomes
  import DocStrings
  import Blocks

  /** A Python module under construction. `append` stores the block itself;
      here that is the block's value at the time of the call. */
  datatype PythonFile = PythonFile(docstring: Option<DocStrings.DocString>, codeblocks: seq<Blocks.Block>)

  /** `PythonFile()`. */
  const Fresh: PythonFile := PythonFile(None, [])

  /** The raw text handed to the file: complete, or cut short by an exception
      raised while rendering a block, after `written` had been written. */
  datatype Output = Written(text: string) | Interrupted(error: Error, written: string)

  /** `PythonFile.add_docstring`. */
  function AddDocstring(f: PythonFile, x: Blocks.Value): (r: Step<PythonFile>)
    ensures r.Done? <==> x.DocValue?
    ensures r.Threw? ==> r.error == TypeError(Blocks.DocstringTypeMessage) && r.receiver == f
    ensures r.Done? ==> r.receiver.docstring == Some(x.doc)
    ensures r.receiver.codeblocks == f.codeblocks
  {
    if x.DocValue? then Done(f.(docstring := Some(x.doc)))
    else Threw(TypeError(Blocks.DocstringTypeMessage), f)
  }

  /** `PythonFile.append`: any code block is accepted, even one that cannot
      be rendered; that only shows when the file is written. */
  function Append(f: PythonFile, x: Blocks.Value): (r: Step<PythonFile>)
    ensures r.Done? <==> x.BlockValue?
    ensures r.Threw? ==> r.error == TypeError(Blocks.CodeblockTypeMessage) && r.receiver == f
    ensures r.Done? ==> && |r.receiver.codeblocks| == |f.codeblocks| + 1
                        && r.receiver.codeblocks[..|f.codeblocks|] == f.codeblocks
                        && r.receiver.codeblocks[|f.codeblocks|] == x.block
    ensures r.receiver.docstring == f.docstring
  {
    if x.BlockValue? then Done(f.(codeblocks := f.codeblocks + [x.block]))
    else Threw(TypeError(Blocks.CodeblockTypeMessage), f)
  }

  /** What `write` puts first: the docstring's lines run together, or a
      one-line docstring naming the file. */
  function Header(f: PythonFile, filename: string): string
  {
    if f.docstring.Some? then Concat(DocStrings.Lines(f.docstring.value))
    else DocStrings.Quotes + filename + "." + DocStrings.Quotes
  }

  predicate AllRender(bs: seq<Blocks.Block>)
  {
    forall i :: 0 <= i < |bs| ==> Blocks.Render(bs[i]).Ok?
  }

  /** The text written for one block: a blank line, then its lines. */
  function Chunk(lines: seq<string>): string
  {
    "\n\n" + Join("\n", lines)
  }

  /** The texts written for a run of blocks that all render. */
  function Chunks(bs: seq<Blocks.Block>): seq<string>
    requires AllRender(bs)
  {
    seq(|bs|, i requires 0 <= i < |bs| => Chunk(Blocks.Render(bs[i]).value))
  }

  /** `bs[k]` is the first block that cannot be rendered. */
  predicate FirstFailure(bs: seq<Blocks.Block>, k: int)
  {
    0 <= k < |bs| && Blocks.Render(bs[k]).Err? && AllRender(bs[..k])
  }

  lemma AllRenderCons(bs: seq<Blocks.Block>)
    requires |bs| > 0
    ensures AllRender(bs) <==> Blocks.Render(bs[0]).Ok? && AllRender(bs[1..])
  {
    if Blocks.Render(bs[0]).Ok? && AllRender(bs[1..]) {
      forall i | 0 <= i < |bs|
        ensures Blocks.Render(bs[i]).Ok?
      {
        if i > 0 { assert bs[i] == bs[1..][i - 1]; }
      }
    }
    if AllRender(bs) {
      forall i | 0 <= i < |bs[1..]|
        ensures Blocks.Render(bs[1..][i]).Ok?
      {
        assert bs[1..][i] == bs[i + 1];
      }
    }
  }

  lemma ChunksTail(bs: seq<Blocks.Block>)
    requires |bs| > 0 && AllRender(bs)
    ensures AllRender(bs[1..])
    ensures Chunks(bs)[1..] == Chunks(bs[1..])
  {
    AllRenderCons(bs);
    assert Chunks(bs) == [Chunk(Blocks.Render(bs[0]).value)] + Chunks(bs[1..]);
  }

  lemma ChunksCons(acc: string, bs: seq<Blocks.Block>)
    requires |bs| > 0 && AllRender(bs)
    ensures AllRender(bs[1..])
    ensures Concat(Chunks(bs)) == Chunk(Blocks.Render(bs[0]).value) + Concat(Chunks(bs[1..]))
    ensures acc + Concat(Chunks(bs)) == acc + Chunk(Blocks.Render(bs[0]).value) + Concat(Chunks(bs[1..]))
  {
    ChunksTail(bs);
  }

  /** A first failure after a block that renders is a first failure one
      position later, after that block's chunk. */
  lemma FailureCons(acc: string, bs: seq<Blocks.Block>, k: int)
    requires |bs| > 0 && Blocks.Render(bs[0]).Ok?
    requires FirstFailure(bs[1..], k)
    ensures FirstFailure(bs, k + 1)
    ensures Concat(Chunks(bs[..k + 1])) == Chunk(Blocks.Render(bs[0]).value) + Concat(Chunks(bs[1..][..k]))
    ensures acc + Concat(Chunks(bs[..k + 1])) == acc + Chunk(Blocks.Render(bs[0]).value) + Concat(Chunks(bs[1..][..k]))
  {
    var prefix := bs[..k + 1];
    assert prefix[1..] == bs[1..][..k];
    assert |prefix| > 0 && prefix[0] == bs[0];
    AllRenderCons(prefix);
    assert bs[k + 1] == bs[1..][k];
    ChunksCons(acc, prefix);
  }

  /** The loop of `write` over the blocks, after `acc` has been written. */
  function WriteBlocks(acc: string, bs: seq<Blocks.Block>): (r: Output)
    decreases |bs|
    ensures r.Written? <==> AllRender(bs)
    ensures r.Written? ==> r.text == acc + Concat(Chunks(bs)) + "\n"
    ensures r.Interrupted? ==> exists k :: && FirstFailure(bs, k)
                                           && r.error == Blocks.Render(bs[k]).error
                                           && r.written == acc + Concat(Chunks(bs[..k]))
  {
    if |bs| == 0 then
      assert Chunks(bs) == [];
      Written(acc + "\n")
    else
      var lines := Blocks.Render(bs[0]);
      AllRenderCons(bs);
      if lines.Err? then
        assert FirstFailure(bs, 0) && Chunks(bs[..0]) == [];
        Interrupted(lines.error, acc)
      else
        var chunk := Chunk(lines.value);
        var r := WriteBlocks(acc + chunk, bs[1..]);
        if r.Written? then
          ChunksCons(acc, bs);
          r
        else
          var k :| && FirstFailure(bs[1..], k)
                   && r.error == Blocks.Render(bs[1..][k]).error
                   && r.written == acc + chunk + Concat(Chunks(bs[1..][..k]));
          FailureCons(acc, bs, k);
          assert bs[1..][k] == bs[k + 1];
          r
  }

  /** `write`, up to the text: the header, then each block's chunk, then one
      final newline. */
  function WriteText(f: PythonFile, filename: string): (r: Output)
    ensures r.Written? <==> AllRender(f.codeblocks)
    ensures r.Written? ==> r.text == Header(f, filename) + Concat(Chunks(f.codeblocks)) + "\n"
    ensures r.Interrupted? ==> exists k :: && FirstFailure(f.codeblocks, k)
                                           && r.error == Blocks.Render(f.codeblocks[k]).error
                                           && r.written == Header(f, filename) + Concat(Chunks(f.codeblocks[..k]))
  {
    WriteBlocks(Header(f, filename), f.codeblocks)
  }

  /** A fresh file with no blocks writes a one-line docstring naming the file. */
  lemma WriteFresh(filename: string)
    ensures WriteText(Fresh, filename) == Written("\"\"\"" + filename + ".\"\"\"\n")
  {
    assert Chunks([]) == [];
    assert DocStrings.Quotes + filename + "." + DocStrings.Quotes + "\n" == "\"\"\"" + filename + ".\"\"\"\n";
  }

  /** After blocks that all render, an appended block is the only one that
      can fail. */
  lemma FirstFailureLast(bs: seq<Blocks.Block>, b: Blocks.Block, k: int)
    requires AllRender(bs)
    requires FirstFailure(bs + [b], k)
    ensures k == |bs|
  {
    forall i | 0 <= i < |bs|
      ensures Blocks.Render((bs + [b])[i]).Ok?
    {
      assert (bs + [b])[i] == bs[i];
    }
  }

  /** Appending a block extends the written text by that block's chunk, just
      before the final newline; a block that cannot be rendered instead stops
      the write right where its chunk would have started. */
  lemma WriteAfterAppend(f: PythonFile, filename: string, b: Blocks.Block)
    requires WriteText(f, filename).Written?
    ensures var t := WriteText(f, filename).text;
      var after := WriteText(Append(f, Blocks.BlockValue(b)).receiver, filename);
      && |t| > 0
      && (Blocks.Render(b).Ok? ==> after == Written(t[..|t| - 1] + Chunk(Blocks.Render(b).value) + "\n"))
      && (Blocks.Render(b).Err? ==> after == Interrupted(Blocks.Render(b).error, t[..|t| - 1]))
  {
    var bs := f.codeblocks;
    var f' := Append(f, Blocks.BlockValue(b)).receiver;
    assert f'.codeblocks == bs + [b] && f'.docstring == f.docstring;
    var h := Header(f, filename);
    var t := WriteText(f, filename).text;
    assert t == (h + Concat(Chunks(bs))) + "\n";
    assert t[..|t| - 1] == h + Concat(Chunks(bs));
    AllRenderCons2(bs, b);
    if Blocks.Render(b).Ok? {
      WriteAppendRendered(h, bs, b);
    } else {
      WriteAppendFailing(h, bs, b);
    }
  }

  lemma WriteAppendRendered(h: string, bs: seq<Blocks.Block>, b: Blocks.Block)
    requires AllRender(bs) && Blocks.Render(b).Ok?
    ensures AllRender(bs + [b])
    ensures WriteBlocks(h, bs + [b]) == Written(h + Concat(Chunks(bs)) + Chunk(Blocks.Render(b).value) + "\n")
  {
    AllRenderCons2(bs, b);
    var c := Chunk(Blocks.Render(b).value);
    assert Chunks(bs + [b]) == Chunks(bs) + [c];
    ConcatAppend(Chunks(bs), [c]);
    assert Concat([c]) == c;
    assert h + Concat(Chunks(bs)) + c == h + (Concat(Chunks(bs)) + c);
  }

  lemma WriteAppendFailing(h: string, bs: seq<Blocks.Block>, b: Blocks.Block)
    requires AllRender(bs) && Blocks.Render(b).Err?
    ensures WriteBlocks(h, bs + [b]) == Interrupted(Blocks.Render(b).error, h + Concat(Chunks(bs)))
  {
    AllRenderCons2(bs, b);
    var r := WriteBlocks(h, bs + [b]);
    var k :| && FirstFailure(bs + [b], k)
             && r.error == Blocks.Render((bs + [b])[k]).error
             && r.written == h + Concat(Chunks((bs + [b])[..k]));
    FirstFailureLast(bs, b, k);
    assert (bs + [b])[..k] == bs;
  }

  lemma AllRenderCons2(bs: seq<Blocks.Block>, b: Blocks.Block)
    requires AllRender(bs)
    ensures AllRender(bs + [b]) <==> Blocks.Render(b).Ok?
  {
    if Blocks.Render(b).Ok? {
      forall i | 0 <= i < |bs + [b]|
        ensures Blocks.Render((bs + [b])[i]).Ok?
      {
        if i < |bs| { assert (bs + [b])[i] == bs[i]; }
      }
    }
    assert (bs + [b])[|bs|] == b;
  }
}
