/** String helpers shared by the renderers: the four-space indentation unit,
    Python's `str.join` and the concatenation of a sequence of strings. */
module Text {

  /** One indentation level: the `'    '` prefix the renderers add. */
  const Pad: string := "    "

  /** `n` blanks. */
  function Spaces(n: nat): (s: string)
    ensures |s| == n
    ensures forall i :: 0 <= i < |s| ==> s[i] == ' '
  {
    if n == 0 then "" else " " + Spaces(n - 1)
  }

  /** Prefixes every line with one indentation level. */
  function Indent(lines: seq<string>): seq<string>
  {
    seq(|lines|, i requires 0 <= i < |lines| => Pad + lines[i])
  }

  /** Every line preceded by `n` blanks. */
  function Deeper(n: nat, lines: seq<string>): seq<string>
  {
    seq(|lines|, i requires 0 <= i < |lines| => Spaces(n) + lines[i])
  }

  /** `block` occurs in `lines` as a contiguous run starting at index `k`. */
  predicate RunAt(lines: seq<string>, k: int, block: seq<string>)
  {
    0 <= k && k + |block| <= |lines| && lines[k..k + |block|] == block
  }

  /** Python's `sep.join(xs)`. */
  function Join(sep: string, xs: seq<string>): string
  {
    if |xs| == 0 then ""
    else if |xs| == 1 then xs[0]
    else xs[0] + sep + Join(sep, xs[1..])
  }

  /** `''.join(xs)`, also the text produced by writing each of `xs` in turn. */
  function Concat(xs: seq<string>): string
  {
    if |xs| == 0 then "" else xs[0] + Concat(xs[1..])
  }

  /** `Join` on two and three elements, spelled out. */
  lemma JoinPair(sep: string, a: string, b: string)
    ensures Join(sep, [a, b]) == a + sep + b
  {
    assert [a, b][1..] == [b];
  }

  lemma JoinTriple(sep: string, a: string, b: string, c: string)
    ensures Join(sep, [a, b, c]) == a + sep + b + sep + c
  {
    assert [a, b, c][1..] == [b, c];
    JoinPair(sep, b, c);
  }

  /** `Concat` on two elements, spelled out. */
  lemma ConcatPair(a: string, b: string)
    ensures Concat([a, b]) == a + b
  {
    assert [a, b][1..] == [b];
    assert Concat([b]) == b + Concat([]);
  }

  /** Four blanks more is one indentation level more. */
  lemma {:induction false} SpacesStep(n: nat)
    ensures Spaces(n + 4) == Pad + Spaces(n)
  {
    assert Spaces(n + 4) == " " + (" " + (" " + (" " + Spaces(n))));
  }

  /** Indenting a line that already has `n` leading blanks gives `n + 4`. */
  lemma IndentSpaces(n: nat, line: string)
    ensures Pad + (Spaces(n) + line) == Spaces(n + 4) + line
  {
    SpacesStep(n);
    assert Pad + (Spaces(n) + line) == (Pad + Spaces(n)) + line;
  }

  /** Indenting lines that sit `n` blanks deep puts them `n + 4` deep. */
  lemma IndentDeeper(n: nat, lines: seq<string>)
    ensures Indent(Deeper(n, lines)) == Deeper(n + 4, lines)
  {
    forall i | 0 <= i < |lines|
      ensures Indent(Deeper(n, lines))[i] == Deeper(n + 4, lines)[i]
    {
      IndentSpaces(n, lines[i]);
    }
  }

  lemma DeeperZero(lines: seq<string>)
    ensures Deeper(0, lines) == lines
  {
    assert Spaces(0) == "";
    forall i | 0 <= i < |lines|
      ensures Deeper(0, lines)[i] == lines[i]
    {
      assert Spaces(0) + lines[i] == lines[i];
    }
  }

  /** A run inside `m` is, once indented, a run inside `x + Indent(m) + y`. */
  lemma RunInIndented(x: seq<string>, m: seq<string>, y: seq<string>, k: int, block: seq<string>)
    requires RunAt(m, k, block)
    ensures RunAt(x + Indent(m) + y, |x| + k, Indent(block))
  {
    var whole := x + Indent(m) + y;
    assert whole[|x| + k..|x| + k + |block|] == Indent(m)[k..k + |block|];
    assert Indent(m)[k..k + |block|] == Indent(m[k..k + |block|]);
  }

  /** A run `depth` blanks deep inside `m` is, once `m` is indented, a run
      `outer = depth + 4` blanks deep inside `x + Indent(m) + y`. */
  lemma RunIndented(x: seq<string>, m: seq<string>, y: seq<string>, out: seq<string>,
                    k: int, depth: nat, outer: nat, lines: seq<string>)
    requires outer == depth + 4
    requires out == x + Indent(m) + y
    requires RunAt(m, k, Deeper(depth, lines))
    ensures RunAt(out, |x| + k, Deeper(outer, lines))
  {
    RunInIndented(x, m, y, k, Deeper(depth, lines));
    IndentDeeper(depth, lines);
  }

  /** Concatenation distributes over sequence append. */
  lemma {:induction false} ConcatAppend(xs: seq<string>, ys: seq<string>)
    ensures Concat(xs + ys) == Concat(xs) + Concat(ys)
  {
    if |xs| == 0 {
      assert xs + ys == ys;
    } else {
      assert (xs + ys)[1..] == xs[1..] + ys;
      ConcatAppend(xs[1..], ys);
    }
  }
}
