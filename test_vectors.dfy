// Values from the crate's own unit test (src/lib.rs:197-253) and the words
// the reference spelling gives for them; `NumberToWords` returns exactly
// `Words(value)`, so these are the outputs of the conversion.

// Each example takes the value as a parameter `v` with `requires v == …`
// rather than writing the literal into `Words(…)`: with a literal argument the
// verifier unfolds the whole spelling at once, which is far more expensive.

module TestVectors {
  import opened Buffer
  import opened Vocabulary
  import opened Reading
  import opened NumberToWordsRu
  import opened Properties

  /** A positive value below 10^12 is spelled by its four groups. */
  lemma PositiveSpelling(v: int)
    requires 0 < v < Trillion
    ensures Spelling(v) == GroupsSpelling(v)
  {
    DivMod(v, Trillion, 0, v);
    assert MagnitudeSpelling(v) == GroupsSpelling(v % Trillion);
  }

  /** The three-digit parts of a number below 10^12, billions first. */
  lemma GroupsOf(r: nat, b: int, m: int, t: int, u: int)
    requires 0 <= b < 1000 && 0 <= m < 1000 && 0 <= t < 1000 && 0 <= u < 1000
    requires r == b * 1_000_000_000 + m * 1_000_000 + t * 1000 + u
    ensures r < Trillion
    ensures GroupsSpelling(r) ==
      GroupSpelling(b, Billions) + GroupSpelling(m, Millions) + GroupSpelling(t, Thousands) + GroupSpelling(u, Ones)
  {
    var q1, q2 := b * 1_000_000 + m * 1000 + t, b * 1000 + m;
    DivMod(r, 1000, q1, u);
    DivMod(q1, 1000, q2, t);
    DivMod(r, 1_000_000, q2, t * 1000 + u);
    DivMod(q2, 1000, b, m);
    DivMod(r, 1_000_000_000, b, m * 1_000_000 + t * 1000 + u);
  }

  /** A positive value below 10^12 given by its four groups is spelled group by group. */
  lemma SpellingByGroups(v: int, b: int, m: int, t: int, u: int)
    requires 0 <= b < 1000 && 0 <= m < 1000 && 0 <= t < 1000 && 0 <= u < 1000
    requires 0 < v == b * 1_000_000_000 + m * 1_000_000 + t * 1000 + u
    ensures Spelling(v) ==
      GroupSpelling(b, Billions) + GroupSpelling(m, Millions) + GroupSpelling(t, Thousands) + GroupSpelling(u, Ones)
  {
    GroupsOf(v, b, m, t, u);
    PositiveSpelling(v);
  }

  lemma RenderTwo(p: Phrase, q: Phrase)
    requires WellFormed(p) && WellFormed(q)
    ensures RenderAll([p, q]) == [Render(p), Render(q)]
  {
    assert [p, q][1..] == [q];
  }

  lemma RenderThree(p: Phrase, q: Phrase, r: Phrase)
    requires WellFormed(p) && WellFormed(q) && WellFormed(r)
    ensures RenderAll([p, q, r]) == [Render(p), Render(q), Render(r)]
  {
    assert [p, q, r][1..] == [q, r];
    RenderTwo(q, r);
  }

  /** Three words join as the first two joined, then the third. */
  lemma JoinThree(a: string, b: string, c: string)
    ensures Join([a, b, c]) == Join([Join([a, b]), c])
  {
    JoinConcat([a, b], [c]);
    JoinSingle(c);
    assert [a, b] + [c] == [a, b, c];
  }

  /** "ноль" for 0. */
  lemma ExampleZero()
    ensures Words(0) == "ноль"
  {
    WordsZero(0);
  }

  /** "один" for 1. */
  lemma ExampleOne(v: int)
    requires v == 1
    ensures Words(v) == "один"
  {
    SpellingOne(v);
    RenderOneWord();
    JoinSingle("один");
  }

  lemma RenderOneWord()
    ensures RenderAll([Counted(1, Ones)]) == ["один"]
  {
    RenderOne(Counted(1, Ones));
    assert Render(Counted(1, Ones)) == "один";
  }

  lemma SpellingOne(v: int)
    requires v == 1
    ensures Spelling(v) == [Counted(1, Ones)]
  {
    SpellingByGroups(v, 0, 0, 0, 1);
    GroupByDigits(1, 0, 0, 1, Ones);
  }

  /** "минус один" for -1. */
  lemma ExampleMinusOne(v: int)
    requires v == -1
    ensures Words(v) == "минус один"
  {
    WordsNegative(v);
    ExampleOne(-v);
    MinusOneText();
  }

  lemma MinusOneText()
    ensures MinusWord + " " + "один" == "минус один"
  {
  }

  /** "семь тысяч сто" for 7 100: a hundreds group alone in the units group writes no scale word. */
  lemma Example7100(v: int)
    requires v == 7_100
    ensures Words(v) == "семь тысяч сто"
  {
    Spelling7100(v);
    Render7100();
    Join7100();
  }

  lemma Spelling7100(v: int)
    requires v == 7_100
    ensures Spelling(v) == [Counted(7, Thousands), Hundred(1), Bare(Ones)]
  {
    SpellingByGroups(v, 0, 0, 7, 100);
    GroupByDigits(7, 0, 0, 7, Thousands);
    GroupByDigits(100, 1, 0, 0, Ones);
  }

  lemma Render7100()
    ensures RenderAll([Counted(7, Thousands), Hundred(1), Bare(Ones)]) == ["семь тысяч", "сто", ""]
  {
    RenderThree(Counted(7, Thousands), Hundred(1), Bare(Ones));
    assert Render(Counted(7, Thousands)) == "семь тысяч";
    assert Render(Hundred(1)) == "сто";
  }

  lemma Join7100()
    ensures Join(["семь тысяч", "сто", ""]) == "семь тысяч сто"
  {
    JoinThree("семь тысяч", "сто", "");
    JoinPair("семь тысяч", "сто");
    JoinPair("семь тысяч сто", "");
  }

  /** "двадцать одна тысяча" for 21 000: the count one takes its feminine form before "тысяча". */
  lemma Example21000(v: int)
    requires v == 21_000
    ensures Words(v) == "двадцать одна тысяча"
  {
    Spelling21000(v);
    Render21000();
    Join21000();
  }

  lemma Join21000()
    ensures Join(["двадцать", "одна тысяча"]) == "двадцать одна тысяча"
  {
    JoinPair("двадцать", "одна тысяча");
  }

  lemma Spelling21000(v: int)
    requires v == 21_000
    ensures Spelling(v) == [Ten(2), Counted(1, Thousands)]
  {
    SpellingByGroups(v, 0, 0, 21, 0);
    GroupByDigits(21, 0, 2, 1, Thousands);
  }

  lemma Render21000()
    ensures RenderAll([Ten(2), Counted(1, Thousands)]) == ["двадцать", "одна тысяча"]
  {
    RenderTwo(Ten(2), Counted(1, Thousands));
    assert Render(Ten(2)) == "двадцать";
    assert Render(Counted(1, Thousands)) == "одна тысяча";
  }

  /** "двести пятьнадцать" for 215, with the table's spelling of fifteen. */
  lemma Example215(v: int)
    requires v == 215
    ensures Words(v) == "двести пятьнадцать"
  {
    Spelling215(v);
    Render215();
    Join215();
  }

  lemma Join215()
    ensures Join(["двести", "пятьнадцать"]) == "двести пятьнадцать"
  {
    JoinPair("двести", "пятьнадцать");
  }

  lemma Spelling215(v: int)
    requires v == 215
    ensures Spelling(v) == [Hundred(2), Counted(15, Ones)]
  {
    SpellingByGroups(v, 0, 0, 0, 215);
    GroupByDigits(215, 2, 1, 5, Ones);
  }

  lemma Render215()
    ensures RenderAll([Hundred(2), Counted(15, Ones)]) == ["двести", "пятьнадцать"]
  {
    RenderTwo(Hundred(2), Counted(15, Ones));
    assert Render(Hundred(2)) == "двести";
    assert Render(Counted(15, Ones)) == "пятьнадцать";
  }

  /** "минус сорок шесть" for -46. */
  lemma ExampleMinus46(v: int)
    requires v == -46
    ensures Words(v) == "минус сорок шесть"
  {
    WordsNegative(v);
    Example46(-v);
    Minus46Text();
  }

  lemma Minus46Text()
    ensures MinusWord + " " + "сорок шесть" == "минус сорок шесть"
  {
  }

  /** "сорок шесть" for 46. */
  lemma Example46(v: int)
    requires v == 46
    ensures Words(v) == "сорок шесть"
  {
    Spelling46(v);
    Render46();
    Join46();
  }

  lemma Join46()
    ensures Join(["сорок", "шесть"]) == "сорок шесть"
  {
    JoinPair("сорок", "шесть");
  }

  lemma Spelling46(v: int)
    requires v == 46
    ensures Spelling(v) == [Ten(4), Counted(6, Ones)]
  {
    SpellingByGroups(v, 0, 0, 0, 46);
    GroupByDigits(46, 0, 4, 6, Ones);
  }

  lemma Render46()
    ensures RenderAll([Ten(4), Counted(6, Ones)]) == ["сорок", "шесть"]
  {
    RenderTwo(Ten(4), Counted(6, Ones));
    assert Render(Ten(4)) == "сорок";
    assert Render(Counted(6, Ones)) == "шесть";
  }

  /** "сто тысяч" for 100 000: a hundreds group alone is closed by the bare scale word. */
  lemma Example100000(v: int)
    requires v == 100_000
    ensures Words(v) == "сто тысяч"
  {
    Spelling100000(v);
    Render100000();
    Join100000();
  }

  lemma Join100000()
    ensures Join(["сто", "тысяч"]) == "сто тысяч"
  {
    JoinPair("сто", "тысяч");
  }

  lemma Spelling100000(v: int)
    requires v == 100_000
    ensures Spelling(v) == [Hundred(1), Bare(Thousands)]
  {
    SpellingByGroups(v, 0, 0, 100, 0);
    GroupByDigits(100, 1, 0, 0, Thousands);
  }

  lemma Render100000()
    ensures RenderAll([Hundred(1), Bare(Thousands)]) == ["сто", "тысяч"]
  {
    RenderTwo(Hundred(1), Bare(Thousands));
    assert Render(Hundred(1)) == "сто";
  }

  /** "двадцать миллионов" for 20 000 000: a round tens group is closed by the bare scale word. */
  lemma Example20000000(v: int)
    requires v == 20_000_000
    ensures Words(v) == "двадцать миллионов"
  {
    Spelling20000000(v);
    Render20000000();
    Join20000000();
  }

  lemma Join20000000()
    ensures Join(["двадцать", "миллионов"]) == "двадцать миллионов"
  {
    JoinPair("двадцать", "миллионов");
  }

  lemma Spelling20000000(v: int)
    requires v == 20_000_000
    ensures Spelling(v) == [Ten(2), Bare(Millions)]
  {
    SpellingByGroups(v, 0, 20, 0, 0);
    GroupByDigits(20, 0, 2, 0, Millions);
  }

  lemma Render20000000()
    ensures RenderAll([Ten(2), Bare(Millions)]) == ["двадцать", "миллионов"]
  {
    RenderTwo(Ten(2), Bare(Millions));
    assert Render(Ten(2)) == "двадцать";
  }

  /** Three non-empty words join with a single space between neighbours. */
  lemma JoinThreeWords(a: string, b: string, c: string)
    requires a != [] && b != [] && c != []
    ensures Join([a, b, c]) == a + " " + b + " " + c
  {
    JoinThree(a, b, c);
    JoinPair(a, b);
    JoinPair(a + " " + b, c);
  }

  /** Four non-empty texts join with a single space between neighbours. */
  lemma JoinFour(a: string, b: string, c: string, d: string)
    requires a != [] && b != [] && c != [] && d != []
    ensures Join([a, b, c, d]) == a + " " + b + " " + c + " " + d
  {
    JoinConcat([a, b], [c, d]);
    JoinPair(a, b);
    JoinPair(c, d);
    JoinPair(a + " " + b, c + " " + d);
    assert [a, b] + [c, d] == [a, b, c, d];
  }

  /** Joining the words of four groups is joining the four group texts. */
  lemma JoinGroups(a: seq<string>, b: seq<string>, c: seq<string>, d: seq<string>)
    ensures Join(a + b + c + d) == Join([Join(a), Join(b), Join(c), Join(d)])
  {
    JoinConcat(a + b + c, d);
    JoinConcat(a + b, c);
    JoinConcat(a, b);
    JoinConcat([Join(a), Join(b), Join(c)], [Join(d)]);
    JoinConcat([Join(a), Join(b)], [Join(c)]);
    JoinSingle(Join(c));
    JoinSingle(Join(d));
    assert [Join(a), Join(b)] + [Join(c)] == [Join(a), Join(b), Join(c)];
    assert [Join(a), Join(b), Join(c)] + [Join(d)] == [Join(a), Join(b), Join(c), Join(d)];
  }

  /**
   * "девятьсот девяносто один миллиард девятьсот девяносто один миллион
   * четыреста одна тысяча двести восемьдесят" for 991 991 401 280, written
   * here as its four group texts separated by single spaces.
   */
  lemma Example991991401280(v: int)
    requires v == 991_991_401_280
    ensures Words(v) ==
      "девятьсот девяносто один миллиард" + " " + "девятьсот девяносто один миллион" + " " +
      "четыреста одна тысяча" + " " + "двести восемьдесят"
  {
    var pb, pm, pt, pu := GroupSpelling(991, Billions), GroupSpelling(991, Millions),
                          GroupSpelling(401, Thousands), GroupSpelling(280, Ones);
    SpellingByGroups(v, 991, 991, 401, 280);
    RenderAll4(pb, pm, pt, pu);
    JoinGroups(RenderAll(pb), RenderAll(pm), RenderAll(pt), RenderAll(pu));
    Words991Billions();
    Text991Billions();
    Words991Millions();
    Text991Millions();
    Words401Thousands();
    Text401Thousands();
    Words280();
    Text280();
    JoinFour("девятьсот девяносто один миллиард", "девятьсот девяносто один миллион",
      "четыреста одна тысяча", "двести восемьдесят");
  }

  lemma Words991Billions()
    ensures RenderAll(GroupSpelling(991, Billions)) == ["девятьсот", "девяносто", "один миллиард"]
  {
    Spelling991Billions();
    Render991Billions();
  }

  lemma Spelling991Billions()
    ensures GroupSpelling(991, Billions) == [Hundred(9), Ten(9), Counted(1, Billions)]
  {
    GroupByDigits(991, 9, 9, 1, Billions);
  }

  lemma Render991Billions()
    ensures RenderAll([Hundred(9), Ten(9), Counted(1, Billions)]) == ["девятьсот", "девяносто", "один миллиард"]
  {
    RenderThree(Hundred(9), Ten(9), Counted(1, Billions));
    assert Render(Hundred(9)) == "девятьсот";
    assert Render(Ten(9)) == "девяносто";
    assert Render(Counted(1, Billions)) == "один миллиард";
  }

  lemma Text991Billions()
    ensures Join(["девятьсот", "девяносто", "один миллиард"]) == "девятьсот девяносто один миллиард"
  {
    JoinThreeWords("девятьсот", "девяносто", "один миллиард");
  }

  lemma Words991Millions()
    ensures RenderAll(GroupSpelling(991, Millions)) == ["девятьсот", "девяносто", "один миллион"]
  {
    Spelling991Millions();
    Render991Millions();
  }

  lemma Spelling991Millions()
    ensures GroupSpelling(991, Millions) == [Hundred(9), Ten(9), Counted(1, Millions)]
  {
    GroupByDigits(991, 9, 9, 1, Millions);
  }

  lemma Render991Millions()
    ensures RenderAll([Hundred(9), Ten(9), Counted(1, Millions)]) == ["девятьсот", "девяносто", "один миллион"]
  {
    RenderThree(Hundred(9), Ten(9), Counted(1, Millions));
    assert Render(Hundred(9)) == "девятьсот";
    assert Render(Ten(9)) == "девяносто";
    assert Render(Counted(1, Millions)) == "один миллион";
  }

  lemma Text991Millions()
    ensures Join(["девятьсот", "девяносто", "один миллион"]) == "девятьсот девяносто один миллион"
  {
    JoinThreeWords("девятьсот", "девяносто", "один миллион");
  }

  lemma Words401Thousands()
    ensures RenderAll(GroupSpelling(401, Thousands)) == ["четыреста", "одна тысяча"]
  {
    Spelling401Thousands();
    Render401Thousands();
  }

  lemma Spelling401Thousands()
    ensures GroupSpelling(401, Thousands) == [Hundred(4), Counted(1, Thousands)]
  {
    GroupByDigits(401, 4, 0, 1, Thousands);
  }

  lemma Render401Thousands()
    ensures RenderAll([Hundred(4), Counted(1, Thousands)]) == ["четыреста", "одна тысяча"]
  {
    RenderTwo(Hundred(4), Counted(1, Thousands));
    assert Render(Hundred(4)) == "четыреста";
    assert Render(Counted(1, Thousands)) == "одна тысяча";
  }

  lemma Text401Thousands()
    ensures Join(["четыреста", "одна тысяча"]) == "четыреста одна тысяча"
  {
    JoinPair("четыреста", "одна тысяча");
  }

  lemma Words280()
    ensures RenderAll(GroupSpelling(280, Ones)) == ["двести", "восемьдесят", ""]
  {
    Spelling280();
    Render280();
  }

  lemma Spelling280()
    ensures GroupSpelling(280, Ones) == [Hundred(2), Ten(8), Bare(Ones)]
  {
    GroupByDigits(280, 2, 8, 0, Ones);
  }

  lemma Render280()
    ensures RenderAll([Hundred(2), Ten(8), Bare(Ones)]) == ["двести", "восемьдесят", ""]
  {
    RenderThree(Hundred(2), Ten(8), Bare(Ones));
    assert Render(Hundred(2)) == "двести";
    assert Render(Ten(8)) == "восемьдесят";
  }

  lemma Text280()
    ensures Join(["двести", "восемьдесят", ""]) == "двести восемьдесят"
  {
    JoinThree("двести", "восемьдесят", "");
    JoinPair("двести", "восемьдесят");
    JoinPair("двести восемьдесят", "");
  }
}
