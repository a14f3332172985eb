// What the output of `number_to_words` (src/lib.rs:13-38) looks like for
// every value: the zero word appears for zero only, the minus word for
// negative values only, a negative value is the minus word followed by the
// output for its magnitude, words are separated by
// single spaces, and only the magnitude modulo 10^12 is spelled.

module Properties {
  import opened Buffer
  import opened Vocabulary
  import opened Reading
  import opened NumberToWordsRu

  /** A rendered spelling holds the zero word exactly where the spelling holds Zero. */
  lemma RenderedZero(ps: seq<Phrase>)
    requires forall p :: p in ps ==> WellFormed(p)
    ensures ZeroWord in RenderAll(ps) <==> Zero in ps
  {
    var ws := RenderAll(ps);
    if ZeroWord in ws {
      var i :| 0 <= i < |ws| && ws[i] == ZeroWord;
      RenderFacts(ps[i]);
    }
    if Zero in ps {
      var i :| 0 <= i < |ps| && ps[i] == Zero;
      assert ws[i] == ZeroWord;
    }
  }

  /** "ноль" is among the words written for a value exactly when the value is zero. */
  lemma ZeroWordOnlyForZero(value: int)
    ensures ZeroWord in RenderAll(Spelling(value)) <==> value == 0
  {
    RenderedZero(Spelling(value));
    if value < 0 {
      assert Zero !in [Minus];
    }
  }

  /** A rendered spelling holds the minus word exactly where the spelling holds Minus. */
  lemma RenderedMinus(ps: seq<Phrase>)
    requires forall p :: p in ps ==> WellFormed(p)
    ensures MinusWord in RenderAll(ps) <==> Minus in ps
  {
    var ws := RenderAll(ps);
    if MinusWord in ws {
      var i :| 0 <= i < |ws| && ws[i] == MinusWord;
      RenderFacts(ps[i]);
    }
    if Minus in ps {
      var i :| 0 <= i < |ps| && ps[i] == Minus;
      assert ws[i] == MinusWord;
    }
  }

  /** "минус" is among the words written for a value exactly when the value is negative. */
  lemma MinusWordOnlyForNegative(value: int)
    ensures MinusWord in RenderAll(Spelling(value)) <==> value < 0
  {
    RenderedMinus(Spelling(value));
    if value < 0 {
      assert Spelling(value)[0] == Minus;
    }
  }

  /** The whole output is "ноль" exactly for zero. */
  lemma WordsZero(value: int)
    ensures Words(value) == ZeroWord <==> value == 0
  {
    if value == 0 {
      WordsOfZeroIsZeroWord();
    }
    if Words(value) == ZeroWord {
      ZeroWordOutput(value);
    }
  }

  lemma WordsOfZeroIsZeroWord()
    ensures Words(0) == ZeroWord
  {
    WordsOfZero();
    JoinSingle(ZeroWord);
  }

  /** Only zero is written as "ноль" alone. */
  lemma ZeroWordOutput(value: int)
    requires Words(value) == ZeroWord
    ensures value == 0
  {
    assert ' ' !in ZeroWord;
    JoinSpaceFree(RenderAll(Spelling(value)));
    ZeroWordOnlyForZero(value);
  }

  /** The output never starts or ends with a space and never holds two spaces in a row. */
  lemma WordsWellSpaced(value: int)
    ensures WellSpaced(Words(value))
  {
    var ps := Spelling(value);
    var ws := RenderAll(ps);
    forall w | w in ws
      ensures WellSpaced(w)
    {
      var i :| 0 <= i < |ws| && ws[i] == w;
      RenderFacts(ps[i]);
    }
    JoinWellSpaced(ws);
  }

  /** A negative value is written as "минус", then a space and the output for its magnitude when that is not empty. */
  lemma WordsNegative(value: int)
    requires value < 0
    ensures Words(value) == if Words(-value) == [] then MinusWord else MinusWord + " " + Words(-value)
  {
    var rest := RenderAll(MagnitudeSpelling(-value));
    SignedWords(value);
    SignedWords(-value);
    JoinConcat([MinusWord], rest);
    JoinSingle(MinusWord);
    JoinPair(MinusWord, Join(rest));
  }

  lemma SignedWords(value: int)
    ensures
      var n: nat := if value < 0 then -value else value;
      Words(value) == Join((if value < 0 then [MinusWord] else []) + RenderAll(MagnitudeSpelling(n)))
  {
    SignedSpelling(value);
  }

  /** Two non-zero values of the same sign whose magnitudes agree modulo 10^12 are written alike. */
  lemma WordsModuloTrillion(v: int, w: int)
    requires v != 0 && w != 0 && (v < 0 <==> w < 0)
    requires (if v < 0 then -v else v) % Trillion == (if w < 0 then -w else w) % Trillion
    ensures Words(v) == Words(w)
  {
    SignedWords(v);
    SignedWords(w);
  }

  /** A non-zero multiple of 10^12 is written as nothing, or as "минус" alone when it is negative. */
  lemma WordsOfTrillions(value: int)
    requires value != 0
    requires (if value < 0 then -value else value) % Trillion == 0
    ensures Words(value) == if value < 0 then MinusWord else []
  {
    var n: nat := if value < 0 then -value else value;
    assert MagnitudeSpelling(n) == [];
    SignedSpelling(value);
    if value < 0 {
      assert RenderAll(Spelling(value)) == [MinusWord];
      JoinSingle(MinusWord);
    }
  }
}
