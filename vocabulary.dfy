// The six constant vocabularies of the converter (src/lib.rs:69-191), each a
// map from a small key to a phrase. The phrases are copied verbatim from the
// crate, nonstandard spellings included: key 17 of the units table is
// "семтьнадцать" while the three scale tables write "семьнадцать", and 15 is
// "пятьнадцать" everywhere.

module Vocabulary {
  import opened Buffer

  /** The word written first for a negative value. */
  const MinusWord: string := "минус"

  /** The whole output for the value zero. */
  const ZeroWord: string := "ноль"

  /** Units and teens, keys 1..19; also the scale table of the units group. */
  function OneToNineteenVocabulary(): (voc: map<int, string>)
    ensures forall k :: k in voc <==> 1 <= k <= 19
  {
    map[
      1 := "один",
      2 := "два",
      3 := "три",
      4 := "четыре",
      5 := "пять",
      6 := "шесть",
      7 := "семь",
      8 := "восемь",
      9 := "девять",
      10 := "десять",
      11 := "одиннадцать",
      12 := "двенадцать",
      13 := "тринадцать",
      14 := "четырнадцать",
      15 := "пятьнадцать",
      16 := "шестьнадцать",
      17 := "семтьнадцать",
      18 := "восемьнадцать",
      19 := "девятьнадцать"
    ]
  }

  /** Multiples of ten, keys 1..9. */
  function TensVocabulary(): (voc: map<int, string>)
    ensures forall k :: k in voc <==> 1 <= k <= 9
  {
    map[
      1 := "десять",
      2 := "двадцать",
      3 := "тридцать",
      4 := "сорок",
      5 := "пятьдесят",
      6 := "шестьдесят",
      7 := "семьдесят",
      8 := "восемьдесят",
      9 := "девяносто"
    ]
  }

  /** Multiples of one hundred, keys 1..9. */
  function HundredsVocabulary(): (voc: map<int, string>)
    ensures forall k :: k in voc <==> 1 <= k <= 9
  {
    map[
      1 := "сто",
      2 := "двести",
      3 := "триста",
      4 := "четыреста",
      5 := "пятьсот",
      6 := "шестьсот",
      7 := "семьсот",
      8 := "восемьсот",
      9 := "девятьсот"
    ]
  }

  /** Counts 1..19 of thousands, the scale word declined for each count. */
  function ThousandsVocabulary(): (voc: map<int, string>)
    ensures forall k :: k in voc <==> 1 <= k <= 19
  {
    map[
      1 := "одна тысяча",
      2 := "две тысячи",
      3 := "три тысячи",
      4 := "четыре тысячи",
      5 := "пять тысяч",
      6 := "шесть тысяч",
      7 := "семь тысяч",
      8 := "восемь тысяч",
      9 := "девять тысяч",
      10 := "десять тысяч",
      11 := "одиннадцать тысяч",
      12 := "двенадцать тысяч",
      13 := "тринадцать тысяч",
      14 := "четырнадцать тысяч",
      15 := "пятьнадцать тысяч",
      16 := "шестьнадцать тысяч",
      17 := "семьнадцать тысяч",
      18 := "восемьнадцать тысяч",
      19 := "девятьнадцать тысяч"
    ]
  }

  /** Counts 1..19 of millions, the scale word declined for each count. */
  function MillionsVocabulary(): (voc: map<int, string>)
    ensures forall k :: k in voc <==> 1 <= k <= 19
  {
    map[
      1 := "один миллион",
      2 := "два миллиона",
      3 := "три миллиона",
      4 := "четыре миллиона",
      5 := "пять миллионов",
      6 := "шесть миллионов",
      7 := "семь миллионов",
      8 := "восемь миллионов",
      9 := "девять миллионов",
      10 := "десять миллионов",
      11 := "одиннадцать миллионов",
      12 := "двенадцать миллионов",
      13 := "тринадцать миллионов",
      14 := "четырнадцать миллионов",
      15 := "пятьнадцать миллионов",
      16 := "шестьнадцать миллионов",
      17 := "семьнадцать миллионов",
      18 := "восемьнадцать миллионов",
      19 := "девятьнадцать миллионов"
    ]
  }

  /** Counts 1..19 of billions, the scale word declined for each count. */
  function BillionsVocabulary(): (voc: map<int, string>)
    ensures forall k :: k in voc <==> 1 <= k <= 19
  {
    map[
      1 := "один миллиард",
      2 := "два миллиарда",
      3 := "три миллиарда",
      4 := "четыре миллиарда",
      5 := "пять миллиардов",
      6 := "шесть миллиардов",
      7 := "семь миллиардов",
      8 := "восемь миллиардов",
      9 := "девять миллиардов",
      10 := "десять миллиардов",
      11 := "одиннадцать миллиардов",
      12 := "двенадцать миллиардов",
      13 := "тринадцать миллиардов",
      14 := "четырнадцать миллиардов",
      15 := "пятьнадцать миллиардов",
      16 := "шестьнадцать миллиардов",
      17 := "семьнадцать миллиардов",
      18 := "восемьнадцать миллиардов",
      19 := "девятьнадцать миллиардов"
    ]
  }

  /** Every phrase of OneToNineteenVocabulary is a non-empty, well-spaced phrase other than the zero and minus words. */
  lemma OneToNineteenWords()
    ensures forall k :: k in OneToNineteenVocabulary() ==> IsWord(OneToNineteenVocabulary()[k]) && OneToNineteenVocabulary()[k] != ZeroWord && OneToNineteenVocabulary()[k] != MinusWord
  {
    forall k | k in OneToNineteenVocabulary()
      ensures IsWord(OneToNineteenVocabulary()[k]) && OneToNineteenVocabulary()[k] != ZeroWord && OneToNineteenVocabulary()[k] != MinusWord
    {
      if k <= 5 {
        OneToNineteenWords1To5();
      } else if k <= 10 {
        OneToNineteenWords6To10();
      } else if k <= 15 {
        OneToNineteenWords11To15();
      } else {
        OneToNineteenWords16To19();
      }
    }
  }

  /** Every phrase of TensVocabulary is a non-empty, well-spaced phrase other than the zero and minus words. */
  lemma TensWords()
    ensures forall k :: k in TensVocabulary() ==> IsWord(TensVocabulary()[k]) && TensVocabulary()[k] != ZeroWord && TensVocabulary()[k] != MinusWord
  {
    forall k | k in TensVocabulary()
      ensures IsWord(TensVocabulary()[k]) && TensVocabulary()[k] != ZeroWord && TensVocabulary()[k] != MinusWord
    {
      if k <= 5 {
        TensWords1To5();
      } else {
        TensWords6To9();
      }
    }
  }

  /** Every phrase of HundredsVocabulary is a non-empty, well-spaced phrase other than the zero and minus words. */
  lemma HundredsWords()
    ensures forall k :: k in HundredsVocabulary() ==> IsWord(HundredsVocabulary()[k]) && HundredsVocabulary()[k] != ZeroWord && HundredsVocabulary()[k] != MinusWord
  {
    forall k | k in HundredsVocabulary()
      ensures IsWord(HundredsVocabulary()[k]) && HundredsVocabulary()[k] != ZeroWord && HundredsVocabulary()[k] != MinusWord
    {
      if k <= 5 {
        HundredsWords1To5();
      } else {
        HundredsWords6To9();
      }
    }
  }

  /** Every phrase of ThousandsVocabulary is a non-empty, well-spaced phrase other than the zero and minus words. */
  lemma ThousandsWords()
    ensures forall k :: k in ThousandsVocabulary() ==> IsWord(ThousandsVocabulary()[k]) && ThousandsVocabulary()[k] != ZeroWord && ThousandsVocabulary()[k] != MinusWord
  {
    forall k | k in ThousandsVocabulary()
      ensures IsWord(ThousandsVocabulary()[k]) && ThousandsVocabulary()[k] != ZeroWord && ThousandsVocabulary()[k] != MinusWord
    {
      if k <= 5 {
        ThousandsWords1To5();
      } else if k <= 10 {
        ThousandsWords6To10();
      } else if k <= 15 {
        ThousandsWords11To15();
      } else {
        ThousandsWords16To19();
      }
    }
  }

  /** Every phrase of MillionsVocabulary is a non-empty, well-spaced phrase other than the zero and minus words. */
  lemma MillionsWords()
    ensures forall k :: k in MillionsVocabulary() ==> IsWord(MillionsVocabulary()[k]) && MillionsVocabulary()[k] != ZeroWord && MillionsVocabulary()[k] != MinusWord
  {
    forall k | k in MillionsVocabulary()
      ensures IsWord(MillionsVocabulary()[k]) && MillionsVocabulary()[k] != ZeroWord && MillionsVocabulary()[k] != MinusWord
    {
      if k <= 5 {
        MillionsWords1To5();
      } else if k <= 10 {
        MillionsWords6To10();
      } else if k <= 15 {
        MillionsWords11To15();
      } else {
        MillionsWords16To19();
      }
    }
  }

  /** Every phrase of BillionsVocabulary is a non-empty, well-spaced phrase other than the zero and minus words. */
  lemma BillionsWords()
    ensures forall k :: k in BillionsVocabulary() ==> IsWord(BillionsVocabulary()[k]) && BillionsVocabulary()[k] != ZeroWord && BillionsVocabulary()[k] != MinusWord
  {
    forall k | k in BillionsVocabulary()
      ensures IsWord(BillionsVocabulary()[k]) && BillionsVocabulary()[k] != ZeroWord && BillionsVocabulary()[k] != MinusWord
    {
      if k <= 5 {
        BillionsWords1To5();
      } else if k <= 10 {
        BillionsWords6To10();
      } else if k <= 15 {
        BillionsWords11To15();
      } else {
        BillionsWords16To19();
      }
    }
  }

  // The entries are checked a few keys at a time, which keeps each proof small.

  lemma OneToNineteenWords1To5()
    ensures IsWord(OneToNineteenVocabulary()[1])
    ensures IsWord(OneToNineteenVocabulary()[2])
    ensures IsWord(OneToNineteenVocabulary()[3])
    ensures IsWord(OneToNineteenVocabulary()[4])
    ensures IsWord(OneToNineteenVocabulary()[5])
  {
  }

  lemma OneToNineteenWords6To10()
    ensures IsWord(OneToNineteenVocabulary()[6])
    ensures IsWord(OneToNineteenVocabulary()[7])
    ensures IsWord(OneToNineteenVocabulary()[8])
    ensures IsWord(OneToNineteenVocabulary()[9])
    ensures IsWord(OneToNineteenVocabulary()[10])
  {
  }

  lemma OneToNineteenWords11To15()
    ensures IsWord(OneToNineteenVocabulary()[11])
    ensures IsWord(OneToNineteenVocabulary()[12])
    ensures IsWord(OneToNineteenVocabulary()[13])
    ensures IsWord(OneToNineteenVocabulary()[14])
    ensures IsWord(OneToNineteenVocabulary()[15])
  {
  }

  lemma OneToNineteenWords16To19()
    ensures IsWord(OneToNineteenVocabulary()[16])
    ensures IsWord(OneToNineteenVocabulary()[17])
    ensures IsWord(OneToNineteenVocabulary()[18])
    ensures IsWord(OneToNineteenVocabulary()[19])
  {
  }

  lemma TensWords1To5()
    ensures IsWord(TensVocabulary()[1])
    ensures IsWord(TensVocabulary()[2])
    ensures IsWord(TensVocabulary()[3])
    ensures IsWord(TensVocabulary()[4])
    ensures IsWord(TensVocabulary()[5])
  {
  }

  lemma TensWords6To9()
    ensures IsWord(TensVocabulary()[6])
    ensures IsWord(TensVocabulary()[7])
    ensures IsWord(TensVocabulary()[8])
    ensures IsWord(TensVocabulary()[9])
  {
  }

  lemma HundredsWords1To5()
    ensures IsWord(HundredsVocabulary()[1])
    ensures IsWord(HundredsVocabulary()[2])
    ensures IsWord(HundredsVocabulary()[3])
    ensures IsWord(HundredsVocabulary()[4])
    ensures IsWord(HundredsVocabulary()[5])
  {
  }

  lemma HundredsWords6To9()
    ensures IsWord(HundredsVocabulary()[6])
    ensures IsWord(HundredsVocabulary()[7])
    ensures IsWord(HundredsVocabulary()[8])
    ensures IsWord(HundredsVocabulary()[9])
  {
  }

  lemma ThousandsWords1To5()
    ensures IsWord(ThousandsVocabulary()[1])
    ensures IsWord(ThousandsVocabulary()[2])
    ensures IsWord(ThousandsVocabulary()[3])
    ensures IsWord(ThousandsVocabulary()[4])
    ensures IsWord(ThousandsVocabulary()[5])
  {
  }

  lemma ThousandsWords6To10()
    ensures IsWord(ThousandsVocabulary()[6])
    ensures IsWord(ThousandsVocabulary()[7])
    ensures IsWord(ThousandsVocabulary()[8])
    ensures IsWord(ThousandsVocabulary()[9])
    ensures IsWord(ThousandsVocabulary()[10])
  {
  }

  lemma ThousandsWords11To15()
    ensures IsWord(ThousandsVocabulary()[11])
    ensures IsWord(ThousandsVocabulary()[12])
    ensures IsWord(ThousandsVocabulary()[13])
    ensures IsWord(ThousandsVocabulary()[14])
    ensures IsWord(ThousandsVocabulary()[15])
  {
  }

  lemma ThousandsWords16To19()
    ensures IsWord(ThousandsVocabulary()[16])
    ensures IsWord(ThousandsVocabulary()[17])
    ensures IsWord(ThousandsVocabulary()[18])
    ensures IsWord(ThousandsVocabulary()[19])
  {
  }

  lemma MillionsWords1To5()
    ensures IsWord(MillionsVocabulary()[1])
    ensures IsWord(MillionsVocabulary()[2])
    ensures IsWord(MillionsVocabulary()[3])
    ensures IsWord(MillionsVocabulary()[4])
    ensures IsWord(MillionsVocabulary()[5])
  {
  }

  lemma MillionsWords6To10()
    ensures IsWord(MillionsVocabulary()[6])
    ensures IsWord(MillionsVocabulary()[7])
    ensures IsWord(MillionsVocabulary()[8])
    ensures IsWord(MillionsVocabulary()[9])
    ensures IsWord(MillionsVocabulary()[10])
  {
  }

  lemma MillionsWords11To15()
    ensures IsWord(MillionsVocabulary()[11])
    ensures IsWord(MillionsVocabulary()[12])
    ensures IsWord(MillionsVocabulary()[13])
    ensures IsWord(MillionsVocabulary()[14])
    ensures IsWord(MillionsVocabulary()[15])
  {
  }

  lemma MillionsWords16To19()
    ensures IsWord(MillionsVocabulary()[16])
    ensures IsWord(MillionsVocabulary()[17])
    ensures IsWord(MillionsVocabulary()[18])
    ensures IsWord(MillionsVocabulary()[19])
  {
  }

  lemma BillionsWords1To5()
    ensures IsWord(BillionsVocabulary()[1])
    ensures IsWord(BillionsVocabulary()[2])
    ensures IsWord(BillionsVocabulary()[3])
    ensures IsWord(BillionsVocabulary()[4])
    ensures IsWord(BillionsVocabulary()[5])
  {
  }

  lemma BillionsWords6To10()
    ensures IsWord(BillionsVocabulary()[6])
    ensures IsWord(BillionsVocabulary()[7])
    ensures IsWord(BillionsVocabulary()[8])
    ensures IsWord(BillionsVocabulary()[9])
    ensures IsWord(BillionsVocabulary()[10])
  {
  }

  lemma BillionsWords11To15()
    ensures IsWord(BillionsVocabulary()[11])
    ensures IsWord(BillionsVocabulary()[12])
    ensures IsWord(BillionsVocabulary()[13])
    ensures IsWord(BillionsVocabulary()[14])
    ensures IsWord(BillionsVocabulary()[15])
  {
  }

  lemma BillionsWords16To19()
    ensures IsWord(BillionsVocabulary()[16])
    ensures IsWord(BillionsVocabulary()[17])
    ensures IsWord(BillionsVocabulary()[18])
    ensures IsWord(BillionsVocabulary()[19])
  {
  }
}
