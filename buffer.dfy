// The output buffer of the converter and the word-joining discipline of
// `append` (src/lib.rs:62-67): a separating space is written only when both
// the buffer and the incoming word are non-empty.

module Buffer {

  /** True when `s` neither starts nor ends with a space and never holds two spaces in a row. */
  predicate WellSpaced(s: string) {
    (s != [] ==> s[0] != ' ' && s[|s| - 1] != ' ') &&
    forall i :: 0 <= i < |s| - 1 ==> s[i] != ' ' || s[i + 1] != ' '
  }

  /** A phrase as the vocabulary tables hold it: non-empty and well spaced (single inner spaces allowed). */
  predicate IsWord(s: string) {
    s != [] && WellSpaced(s)
  }

  /** The non-empty elements of `words`, in order. */
  function NonEmpty(words: seq<string>): (r: seq<string>)
    ensures forall w :: w in r ==> w != [] && w in words
  {
    if words == [] then []
    else if words[0] == [] then NonEmpty(words[1..])
    else [words[0]] + NonEmpty(words[1..])
  }

  /** The elements of `words` written one after another with one space between neighbours. */
  function Separated(words: seq<string>): string {
    if words == [] then []
    else if |words| == 1 then words[0]
    else words[0] + " " + Separated(words[1..])
  }

  /** Reference meaning of a buffer built from `words`: the non-empty words separated by single spaces. */
  function Join(words: seq<string>): string {
    Separated(NonEmpty(words))
  }

  lemma {:induction false} NonEmptyConcat(xs: seq<string>, ys: seq<string>)
    ensures NonEmpty(xs + ys) == NonEmpty(xs) + NonEmpty(ys)
  {
    if xs == [] {
      assert xs + ys == ys;
    } else {
      assert (xs + ys)[1..] == xs[1..] + ys;
      NonEmptyConcat(xs[1..], ys);
    }
  }

  lemma {:induction false} SeparatedConcat(xs: seq<string>, ys: seq<string>)
    requires xs != [] && ys != []
    ensures Separated(xs + ys) == Separated(xs) + " " + Separated(ys)
  {
    if |xs| == 1 {
      assert (xs + ys)[1..] == ys;
    } else {
      assert (xs + ys)[1..] == xs[1..] + ys;
      SeparatedConcat(xs[1..], ys);
    }
  }

  lemma {:induction false} SeparatedNonEmpty(words: seq<string>)
    requires forall w :: w in words ==> w != []
    ensures Separated(words) == [] <==> words == []
  {
    if |words| == 1 {
      assert words[0] in words;
    } else if |words| > 1 {
      assert forall w :: w in words[1..] ==> w in words;
      SeparatedNonEmpty(words[1..]);
    }
  }

  /** A single word joins to itself. */
  lemma JoinSingle(w: string)
    ensures Join([w]) == w
  {
    assert [w][1..] == [];
    assert NonEmpty([w]) == if w == [] then [] else [w] by {
      assert NonEmpty([w][1..]) == [];
      assert [w] + [] == [w];
    }
  }

  /** Joining two buffers is exactly what `append` does to them. */
  lemma JoinPair(a: string, b: string)
    ensures Join([a, b]) == if a == [] then b else if b == [] then a else a + " " + b
  {
    assert [a, b][1..] == [b];
    assert NonEmpty([a, b]) == (if a == [] then [] else [a]) + NonEmpty([b]);
    JoinSingle(b);
    assert NonEmpty([b]) == if b == [] then [] else [b] by {
      assert [b][1..] == [];
      assert NonEmpty([b][1..]) == [];
      assert [b] + [] == [b];
    }
    if a != [] && b != [] {
      assert NonEmpty([a, b]) == [a, b];
      assert [a, b][1..] == [b];
    } else if a != [] {
      assert NonEmpty([a, b]) == [a];
    }
  }

  /** Joining a concatenation joins the joins of the parts: appending word by word and appending a whole block agree. */
  lemma JoinConcat(xs: seq<string>, ys: seq<string>)
    ensures Join(xs + ys) == Join([Join(xs), Join(ys)])
  {
    NonEmptyConcat(xs, ys);
    SeparatedNonEmpty(NonEmpty(xs));
    SeparatedNonEmpty(NonEmpty(ys));
    JoinPair(Join(xs), Join(ys));
    if NonEmpty(xs) == [] {
      assert NonEmpty(xs) + NonEmpty(ys) == NonEmpty(ys);
    } else if NonEmpty(ys) == [] {
      assert NonEmpty(xs) + NonEmpty(ys) == NonEmpty(xs);
    } else {
      SeparatedConcat(NonEmpty(xs), NonEmpty(ys));
    }
  }

  /** A buffer already holding `Join(xs)` that receives `ys` holds `Join(xs + ys)`. */
  lemma JoinExtend(xs: seq<string>, ys: seq<string>)
    ensures Join([Join(xs)] + ys) == Join(xs + ys)
  {
    JoinConcat(xs, ys);
    JoinConcat([Join(xs)], ys);
    JoinSingle(Join(xs));
  }

  lemma GlueWellSpaced(a: string, b: string)
    requires IsWord(a) && IsWord(b)
    ensures IsWord(a + " " + b)
  {
    var s := a + " " + b;
    forall i | 0 <= i < |s| - 1
      ensures s[i] != ' ' || s[i + 1] != ' '
    {
      if i < |a| - 1 {
        assert s[i] == a[i] && s[i + 1] == a[i + 1];
      } else if i == |a| - 1 {
        assert s[i] == a[|a| - 1];
      } else if i == |a| {
        assert s[i + 1] == b[0];
      } else {
        assert s[i] == b[i - |a| - 1] && s[i + 1] == b[i - |a|];
      }
    }
  }

  lemma {:induction false} SeparatedWellSpaced(words: seq<string>)
    requires forall w :: w in words ==> IsWord(w)
    ensures WellSpaced(Separated(words))
    ensures words != [] ==> IsWord(Separated(words))
  {
    if |words| == 1 {
      assert words[0] in words;
    } else if |words| > 1 {
      assert words[0] in words;
      assert forall w :: w in words[1..] ==> w in words;
      SeparatedWellSpaced(words[1..]);
      GlueWellSpaced(words[0], Separated(words[1..]));
    }
  }

  /** Joining well-spaced words never produces a leading, trailing or doubled space. */
  lemma JoinWellSpaced(words: seq<string>)
    requires forall w :: w in words ==> WellSpaced(w)
    ensures WellSpaced(Join(words))
  {
    SeparatedWellSpaced(NonEmpty(words));
  }

  lemma SeparatedSpaceFree(words: seq<string>)
    requires forall w :: w in words ==> w != []
    requires ' ' !in Separated(words)
    ensures words == [] || Separated(words) in words
  {
    if |words| == 1 {
      assert words[0] in words;
    }
  }

  /** A joined buffer without a space is empty or is one of the words that were appended. */
  lemma JoinSpaceFree(words: seq<string>)
    requires ' ' !in Join(words)
    ensures Join(words) == [] || Join(words) in words
  {
    SeparatedSpaceFree(NonEmpty(words));
  }

  /**
   * `append(word, buffer)`: pushes a separating space when both the buffer and
   * the word are non-empty, then pushes the word.
   */
  method Append(word: string, buffer: string) returns (buffer': string)
    ensures buffer' == Join([buffer, word])
    ensures WellSpaced(buffer) && WellSpaced(word) ==> WellSpaced(buffer')
  {
    buffer' := buffer;
    if buffer != [] && word != [] {
      buffer' := buffer' + " ";
    }
    buffer' := buffer' + word;
    JoinPair(buffer, word);
    if WellSpaced(buffer) && WellSpaced(word) {
      JoinWellSpaced([buffer, word]);
    }
  }
}
