/** The `out` file object the emitters write to. */
module Output {
  import opened Text

  /** An output stream: the strings written so far, in order. */
  class Stream {
    var text: seq<string>

    constructor ()
      ensures text == []
    {
      text := [];
    }

    /** `out.write(s)`: appends `s` and changes nothing else. */
    method Write(s: string)
      modifies this
      ensures text == old(text) + [s]
    {
      text := text + [s];
    }

    /** Consecutive `out.write` calls, one per string of `lines`. */
    method WriteLines(lines: seq<string>)
      modifies this
      ensures text == old(text) + lines
    {
      var i := 0;
      while i < |lines|
        invariant 0 <= i <= |lines|
        invariant text == old(text) + lines[..i]
      {
        assert lines[..i + 1] == lines[..i] + [lines[i]];
        Write(lines[i]);
        i := i + 1;
      }
      assert lines[..i] == lines;
    }

    /** The contents of the file written so far. */
    function Contents(): string
      reads this
    {
      Concat(text)
    }
  }

  /** One string per element of `xs`, as `line` renders it. */
  function Each<T>(xs: seq<T>, line: T -> string): (r: seq<string>)
    ensures |r| == |xs|
  {
    seq(|xs|, i requires 0 <= i < |xs| => line(xs[i]))
  }

  lemma EachStep<T>(xs: seq<T>, line: T -> string, i: nat)
    requires i < |xs|
    ensures Each(xs[..i + 1], line) == Each(xs[..i], line) + [line(xs[i])]
  {
  }

  /** The loop `for x in xs: out.write(line(x))`. */
  method WriteEach<T>(xs: seq<T>, line: T -> string, out: Stream)
    modifies out
    ensures out.text == old(out.text) + Each(xs, line)
  {
    var i := 0;
    while i < |xs|
      invariant 0 <= i <= |xs|
      invariant out.text == old(out.text) + Each(xs[..i], line)
    {
      EachStep(xs, line, i);
      out.Write(line(xs[i]));
      i := i + 1;
    }
    assert xs[..i] == xs;
  }

  lemma AppendAssoc(t: seq<string>, a: seq<string>, b: seq<string>)
    ensures t + a + b == t + (a + b)
  {
  }

  lemma AppendAssoc3(t: seq<string>, a: seq<string>, b: seq<string>, c: seq<string>)
    ensures t + a + b + c == t + (a + b + c)
  {
  }

  /** The strings `f` writes for each element of `xs`, one after another. */
  function Gather<T>(xs: seq<T>, f: T -> seq<string>): seq<string>
  {
    if xs == [] then [] else Gather(xs[..|xs| - 1], f) + f(xs[|xs| - 1])
  }

  lemma GatherStep<T>(xs: seq<T>, f: T -> seq<string>, i: nat)
    requires i < |xs|
    ensures Gather(xs[..i + 1], f) == Gather(xs[..i], f) + f(xs[i])
  {
    assert xs[..i + 1][..i] == xs[..i];
  }

  /** Writing element `i`'s strings after the first `i` elements' extends the gathered text by one element. */
  lemma GatherAppend<T>(t: seq<string>, xs: seq<T>, f: T -> seq<string>, i: nat)
    requires i < |xs|
    ensures t + Gather(xs[..i + 1], f) == t + Gather(xs[..i], f) + f(xs[i])
  {
    GatherStep(xs, f, i);
  }

  lemma GatherAll<T>(xs: seq<T>, f: T -> seq<string>)
    ensures Gather(xs[..|xs|], f) == Gather(xs, f)
  {
    assert xs[..|xs|] == xs;
  }

  lemma GatherSnoc<T>(xs: seq<T>, f: T -> seq<string>, x: T)
    ensures Gather(xs + [x], f) == Gather(xs, f) + f(x)
  {
    assert (xs + [x])[..|xs + [x]| - 1] == xs;
  }

  /** The writes of a loop `for i in range(len(xs)): out.write(xs[i]);
      if i != len(xs) - 1: out.write(sep)`, followed in each round by the
      writes `ends`, after `i` rounds. */
  function SepWrites(xs: seq<string>, sep: string, ends: seq<string>, i: nat): seq<string>
    requires i <= |xs|
  {
    if i == 0 then []
    else SepWrites(xs, sep, ends, i - 1) + [xs[i - 1]] + (if i - 1 != |xs| - 1 then [sep] else []) + ends
  }

  lemma SepWritesConcatStep(xs: seq<string>, sep: string, ends: seq<string>, i: nat)
    requires 0 < i <= |xs|
    ensures Concat(SepWrites(xs, sep, ends, i)) ==
            Concat(SepWrites(xs, sep, ends, i - 1)) + xs[i - 1] + (if i < |xs| then sep else "") + Concat(ends)
  {
    var s: seq<string> := if i - 1 != |xs| - 1 then [sep] else [];
    var prev := SepWrites(xs, sep, ends, i - 1);
    ConcatAppend(prev + [xs[i - 1]] + s, ends);
    ConcatAppend(prev + [xs[i - 1]], s);
    ConcatAppend(prev, [xs[i - 1]]);
    assert Concat([xs[i - 1]]) == xs[i - 1];
    assert Concat(s) == (if i < |xs| then sep else "") by {
      if s != [] {
        assert Concat(s) == Concat([]) + sep;
      }
    }
  }

  /** The separator is written between neighbours only: the text of the
      writes is `sep + ends` joining the items, then `ends` once more. */
  lemma {:induction false} SepWritesConcat(xs: seq<string>, sep: string, ends: seq<string>, i: nat)
    requires 0 < i <= |xs|
    ensures Concat(SepWrites(xs, sep, ends, i)) ==
            Join(sep + Concat(ends), xs[..i]) + (if i < |xs| then sep else "") + Concat(ends)
  {
    var e, x := Concat(ends), xs[i - 1];
    SepWritesConcatStep(xs, sep, ends, i);
    var c := Concat(SepWrites(xs, sep, ends, i - 1));
    JoinSnoc(sep + e, xs[..i - 1], x);
    assert xs[..i] == xs[..i - 1] + [x];
    if i > 1 {
      SepWritesConcat(xs, sep, ends, i - 1);
      var j := Join(sep + e, xs[..i - 1]);
      assert c == j + sep + e;
      assert Join(sep + e, xs[..i]) == j + (sep + e) + x;
      StringAssoc(j, sep, e, x);
    } else {
      assert xs[..i - 1] == [];
    }
  }

  lemma StringAssoc(j: string, sep: string, e: string, x: string)
    ensures j + sep + e + x == j + (sep + e) + x
  {
  }

  /** When `f` always writes `k` strings, the gathered list has `k` per element. */
  lemma {:induction false} GatherUniformLength<T>(xs: seq<T>, f: T -> seq<string>, k: nat)
    requires forall x :: |f(x)| == k
    ensures |Gather(xs, f)| == k * |xs|
  {
    if xs != [] {
      GatherUniformLength(xs[..|xs| - 1], f, k);
      MulSucc(k, |xs| - 1);
    }
  }

  /** ... and element `i` owns positions `k * i` to `k * i + k - 1`, in order. */
  lemma {:induction false} GatherUniformAt<T>(xs: seq<T>, f: T -> seq<string>, k: nat, i: nat, j: nat)
    requires forall x :: |f(x)| == k
    requires i < |xs| && j < k
    ensures k * i + j < |Gather(xs, f)|
    ensures Gather(xs, f)[k * i + j] == f(xs[i])[j]
  {
    var init := xs[..|xs| - 1];
    GatherUniformLength(init, f, k);
    MulSucc(k, |init|);
    if i < |init| {
      GatherUniformAt(init, f, k, i, j);
      assert init[i] == xs[i];
    } else {
      assert i == |init|;
    }
  }

  lemma MulSucc(k: nat, n: nat)
    ensures k * (n + 1) == k * n + k
  {
  }
}
