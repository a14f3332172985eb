// The conversion itself (src/lib.rs:13-60): `number_to_words` writes the sign
// and then the four three-digit groups of the value into a buffer, and
// `translate` writes one group with the count table and the bare scale word
// of its scale. The buffer is a string threaded through the calls; each
// method is proved against the reference spelling of module Reading.

module NumberToWordsRu {
  import opened Buffer
  import opened Vocabulary
  import opened Reading

  /** Rust's `/` on integers: the quotient truncated toward zero. */
  function Quot(a: int, b: int): int
    requires b > 0
  {
    if a >= 0 then a / b else -((-a) / b)
  }

  /**
   * `Quot` truncates toward zero: it rounds a non-negative quotient down and a
   * negative one up. Stated as a lemma so that callers of `Quot` do not carry
   * these products around.
   */
  lemma QuotTruncates(a: int, b: int)
    requires b > 0
    ensures a >= 0 ==> b * Quot(a, b) <= a < b * (Quot(a, b) + 1)
    ensures a < 0 ==> b * (Quot(a, b) - 1) < a <= b * Quot(a, b)
  {
  }

  /** Rust's `%` on integers: the remainder has the sign of the dividend. */
  function Rem(a: int, b: int): (r: int)
    requires b > 0
    ensures a == b * Quot(a, b) + r
    ensures a >= 0 ==> 0 <= r < b
    ensures a < 0 ==> -b < r <= 0
  {
    if a >= 0 then a % b else -((-a) % b)
  }

  /** `map.get(&key).map(append)`: the entry as a one-word list, or nothing when the key is missing. */
  function Lookup(voc: map<int, string>, key: int): (ws: seq<string>)
    ensures |ws| <= 1
    ensures ws != [] <==> key in voc
    ensures forall w :: w in ws ==> key in voc && w == voc[key]
  {
    if key in voc then [voc[key]] else []
  }

  /**
   * The words `translate(group, buffer, voc, unit)` appends, in order: those
   * of its third digit and of its last two digits.
   */
  function GroupWords(group: int, voc: map<int, string>, unit: string): seq<string> {
    ClauseWords(Quot(group, 100), Rem(group, 100), voc, unit)
  }

  /**
   * The hundreds word of the third digit if the table has it, then by the
   * last two digits r: the bare scale word when r is 0 and the third digit is
   * not; the count entry voc[r] when r is 1..19; the tens word of r / 10
   * followed by the bare scale word or by voc[r % 10] when r is 20..99;
   * nothing otherwise.
   */
  function ClauseWords(thirdDigit: int, oneToNinetyNine: int, voc: map<int, string>, unit: string): seq<string> {
    Lookup(HundredsVocabulary(), thirdDigit) + RestWords(thirdDigit, oneToNinetyNine, voc, unit)
  }

  function RestWords(thirdDigit: int, oneToNinetyNine: int, voc: map<int, string>, unit: string): seq<string> {
    if oneToNinetyNine == 0 && thirdDigit != 0 then [unit]
    else if 1 <= oneToNinetyNine <= 19 then Lookup(voc, oneToNinetyNine)
    else if 20 <= oneToNinetyNine <= 99 then
      Lookup(TensVocabulary(), oneToNinetyNine / 10) +
      (if oneToNinetyNine % 10 == 0 then [unit] else Lookup(voc, oneToNinetyNine % 10))
    else []
  }

  /** `translate`: appends the words of one group to the buffer. */
  method Translate(group: int, buffer: string, voc: map<int, string>, unit: string) returns (buffer': string)
    ensures buffer' == Join([buffer] + GroupWords(group, voc, unit))
    ensures group == 0 ==> buffer' == buffer
  {
    buffer' := buffer;
    var thirdDigit := Quot(group, 100);
    if thirdDigit in HundredsVocabulary() {
      buffer' := Append(HundredsVocabulary()[thirdDigit], buffer');
    }
    JoinLookup(buffer, Lookup(HundredsVocabulary(), thirdDigit));
    ghost var afterHundreds := buffer';
    var oneToNinetyNine := Rem(group, 100);
    if oneToNinetyNine == 0 && thirdDigit != 0 {
      buffer' := Append(unit, buffer');
      JoinLookup(afterHundreds, [unit]);
    } else if 1 <= oneToNinetyNine <= 19 {
      if oneToNinetyNine in voc {
        buffer' := Append(voc[oneToNinetyNine], buffer');
      }
      JoinLookup(afterHundreds, Lookup(voc, oneToNinetyNine));
    } else if 20 <= oneToNinetyNine <= 99 {
      // Here oneToNinetyNine is 20..99, so Dafny's `/` and `%` agree with Rust's.
      var secondDigit := oneToNinetyNine / 10;
      if secondDigit in TensVocabulary() {
        buffer' := Append(TensVocabulary()[secondDigit], buffer');
      }
      JoinLookup(afterHundreds, Lookup(TensVocabulary(), secondDigit));
      ghost var afterTens := buffer';
      var firstDigit := oneToNinetyNine % 10;
      if firstDigit == 0 {
        buffer' := Append(unit, buffer');
      } else if firstDigit in voc {
        buffer' := Append(voc[firstDigit], buffer');
      }
      JoinLookup(afterTens, if firstDigit == 0 then [unit] else Lookup(voc, firstDigit));
      JoinStep(afterHundreds, Lookup(TensVocabulary(), secondDigit), afterTens,
        if firstDigit == 0 then [unit] else Lookup(voc, firstDigit), buffer');
    } else {
      JoinLookup(afterHundreds, []);
    }
    JoinStep(buffer, Lookup(HundredsVocabulary(), thirdDigit), afterHundreds,
      RestWords(thirdDigit, oneToNinetyNine, voc, unit), buffer');
  }

  /** Appending at most one word to a buffer is joining it to the buffer. */
  lemma JoinLookup(buffer: string, ws: seq<string>)
    requires |ws| <= 1
    ensures Join([buffer] + ws) == if ws == [] then buffer else Join([buffer, ws[0]])
  {
    if ws == [] {
      JoinSingle(buffer);
      assert [buffer] + ws == [buffer];
    } else {
      assert [buffer] + ws == [buffer, ws[0]];
    }
  }

  /**
   * Two rounds of appending: a buffer holding `buffer` plus the words `xs`,
   * after the words `ys` are appended, holds `buffer` plus `xs + ys`.
   */
  lemma JoinStep(buffer: string, xs: seq<string>, middle: string, ys: seq<string>, last: string)
    requires middle == Join([buffer] + xs)
    requires last == Join([middle] + ys)
    ensures last == Join([buffer] + (xs + ys))
  {
    JoinExtend([buffer] + xs, ys);
    assert [buffer] + xs + ys == [buffer] + (xs + ys);
  }

  /** The reference output for a value: its spelling rendered through the vocabularies and joined. */
  function Words(value: int): string {
    Join(RenderAll(Spelling(value)))
  }

  /**
   * `number_to_words`: "минус" for a negative value, then "ноль" for zero or
   * the groups of billions, millions, thousands and units of the magnitude.
   * The magnitude `value.abs()` overflows for the least i64, which is
   * therefore excluded.
   */
  method NumberToWords(value: int) returns (words: string)
    requires -0x8000_0000_0000_0000 < value < 0x8000_0000_0000_0000
    ensures words == Words(value)
  {
    var buffer := "";
    var v := value;
    if v < 0 {
      v := -v;
      buffer := Append(MinusWord, buffer);
    }
    ghost var sign: seq<string> := if value < 0 then [MinusWord] else [];
    assert buffer == Join(sign) by {
      JoinPair("", MinusWord);
      JoinSingle(MinusWord);
    }
    if v == 0 {
      buffer := Append(ZeroWord, buffer);
      JoinPair("", ZeroWord);
      JoinSingle(ZeroWord);
      WordsOfZero();
    } else {
      // After the sign step v is positive, so Dafny's `/` and `%` agree with Rust's.
      var billions := (v % 1_000_000_000_000) / 1_000_000_000;
      buffer := Translate(billions, buffer, BillionsVocabulary(), "миллиардов");
      var millions := (v % 1_000_000_000) / 1_000_000;
      buffer := Translate(millions, buffer, MillionsVocabulary(), "миллионов");
      var thousands := (v % 1_000_000) / 1000;
      buffer := Translate(thousands, buffer, ThousandsVocabulary(), "тысяч");
      var oneTo999 := v % 1000;
      buffer := Translate(oneTo999, buffer, OneToNineteenVocabulary(), "");
      JoinChain(sign,
        GroupWords(billions, BillionsVocabulary(), "миллиардов"),
        GroupWords(millions, MillionsVocabulary(), "миллионов"),
        GroupWords(thousands, ThousandsVocabulary(), "тысяч"),
        GroupWords(oneTo999, OneToNineteenVocabulary(), ""));
      WordsByGroups(value, v);
    }
    words := buffer;
  }

  /** Four rounds of appending to a buffer that holds `xs`. */
  lemma JoinChain(xs: seq<string>, a: seq<string>, b: seq<string>, c: seq<string>, d: seq<string>)
    ensures Join([Join([Join([Join([Join(xs)] + a)] + b)] + c)] + d) == Join(xs + (a + b + c + d))
  {
    JoinExtend(xs, a);
    JoinExtend(xs + a, b);
    JoinExtend(xs + a + b, c);
    JoinExtend(xs + a + b + c, d);
    assert xs + a + b + c + d == xs + (a + b + c + d);
  }

  /** The reference output for zero is the zero word. */
  lemma WordsOfZero()
    ensures Words(0) == Join([ZeroWord])
  {
    assert Spelling(0) == [Zero];
    assert RenderAll([Zero]) == [ZeroWord];
  }

  /** The millions group the source cuts out of a magnitude is that of the magnitude modulo 10^12. */
  lemma MillionsGroup(n: nat)
    ensures (n % 1_000_000_000) / 1_000_000 == n % Trillion / 1_000_000 % 1000
  {
    var r, q := n % Trillion, n / Trillion;
    var a, s := r / 1_000_000, r % 1_000_000;
    var b, c := a % 1000, a / 1000;
    DivMod(n, 1_000_000_000, 1000 * q + c, 1_000_000 * b + s);
    DivMod(1_000_000 * b + s, 1_000_000, b, s);
  }

  /** The thousands group the source cuts out of a magnitude is that of the magnitude modulo 10^12. */
  lemma ThousandsGroup(n: nat)
    ensures (n % 1_000_000) / 1000 == n % Trillion / 1000 % 1000
  {
    var r, q := n % Trillion, n / Trillion;
    var a, s := r / 1000, r % 1000;
    var b, c := a % 1000, a / 1000;
    DivMod(n, 1_000_000, 1_000_000 * q + c, 1000 * b + s);
    DivMod(1000 * b + s, 1000, b, s);
  }

  /** The units group the source cuts out of a magnitude is that of the magnitude modulo 10^12. */
  lemma UnitsGroup(n: nat)
    ensures n % 1000 == n % Trillion % 1000
  {
    var r, q := n % Trillion, n / Trillion;
    DivMod(n, 1000, 1_000_000_000 * q + r / 1000, r % 1000);
  }

  lemma RenderAll4(a: seq<Phrase>, b: seq<Phrase>, c: seq<Phrase>, d: seq<Phrase>)
    requires forall p :: p in a + b + c + d ==> WellFormed(p)
    ensures RenderAll(a + b + c + d) == RenderAll(a) + RenderAll(b) + RenderAll(c) + RenderAll(d)
  {
    RenderAllConcat(a + b + c, d);
    RenderAllConcat(a + b, c);
    RenderAllConcat(a, b);
  }

  /**
   * The words the four `translate` calls append for a non-zero magnitude,
   * with the groups cut out as the source cuts them, are the rendering of
   * the magnitude's reference spelling.
   */
  lemma MagnitudeWords(n: nat)
    requires n != 0
    ensures RenderAll(MagnitudeSpelling(n)) ==
      GroupWords((n % 1_000_000_000_000) / 1_000_000_000, BillionsVocabulary(), "миллиардов") +
      GroupWords((n % 1_000_000_000) / 1_000_000, MillionsVocabulary(), "миллионов") +
      GroupWords((n % 1_000_000) / 1000, ThousandsVocabulary(), "тысяч") +
      GroupWords(n % 1000, OneToNineteenVocabulary(), "")
  {
    var r := n % Trillion;
    MillionsGroup(n);
    ThousandsGroup(n);
    UnitsGroup(n);
    var b, m, t, u := r / 1_000_000_000, r / 1_000_000 % 1000, r / 1000 % 1000, r % 1000;
    assert b < 1000;
    var pb, pm, pt, pu := GroupSpelling(b, Billions), GroupSpelling(m, Millions),
                          GroupSpelling(t, Thousands), GroupSpelling(u, Ones);
    assert MagnitudeSpelling(n) == pb + pm + pt + pu;
    RenderAll4(pb, pm, pt, pu);
    GroupWordsSpelled(b, Billions);
    GroupWordsSpelled(m, Millions);
    GroupWordsSpelled(t, Thousands);
    GroupWordsSpelled(u, Ones);
  }

  /** For a non-zero value, the reference output is the sign followed by the four translated groups. */
  lemma WordsByGroups(value: int, n: nat)
    requires value != 0 && n == if value < 0 then -value else value
    ensures
      Words(value) ==
        Join((if value < 0 then [MinusWord] else []) +
          (GroupWords((n % 1_000_000_000_000) / 1_000_000_000, BillionsVocabulary(), "миллиардов") +
           GroupWords((n % 1_000_000_000) / 1_000_000, MillionsVocabulary(), "миллионов") +
           GroupWords((n % 1_000_000) / 1000, ThousandsVocabulary(), "тысяч") +
           GroupWords(n % 1000, OneToNineteenVocabulary(), "")))
  {
    MagnitudeWords(n);
    SignedSpelling(value);
  }

  /** The rendered spelling of a value is the minus word, for a negative value, then the rendered spelling of its magnitude. */
  lemma SignedSpelling(value: int)
    ensures
      var n: nat := if value < 0 then -value else value;
      RenderAll(Spelling(value)) == (if value < 0 then [MinusWord] else []) + RenderAll(MagnitudeSpelling(n))
  {
    if value < 0 {
      var ps := MagnitudeSpelling(-value);
      assert Spelling(value) == [Minus] + ps;
      RenderAllConcat([Minus], ps);
      RenderOne(Minus);
    }
  }

  /**
   * For a group 0..999, the words `translate` appends are the rendering of
   * the group's reference spelling.
   */
  lemma GroupWordsSpelled(g: int, s: Scale)
    requires 0 <= g < 1000
    ensures GroupWords(g, ScaleVocabulary(s), ScaleSuffix(s)) == RenderAll(GroupSpelling(g, s))
  {
    GroupClause(g, ScaleVocabulary(s), ScaleSuffix(s));
    DigitsWords(g / 100, g / 10 % 10, g % 10, s);
  }

  /** For a group 0..999 the words of `translate` are those of its three decimal digits. */
  lemma GroupClause(g: int, voc: map<int, string>, unit: string)
    requires 0 <= g < 1000
    ensures GroupWords(g, voc, unit) == ClauseWords(g / 100, 10 * (g / 10 % 10) + g % 10, voc, unit)
  {
    GroupDigits(g);
  }

  /**
   * For a group 0..999 the hundreds lookup hits exactly when the hundreds
   * digit is not 0 (a group below 100 looks up key 0, which misses, and so
   * writes no hundreds word); every count looked up is 1..19 and hits; the
   * tens digit looked up is 2..9 and hits.
   */
  lemma GroupLookupsHit(group: int, s: Scale)
    requires 0 <= group < 1000
    ensures var thirdDigit, r := Quot(group, 100), Rem(group, 100);
      0 <= thirdDigit <= 9 && 0 <= r <= 99 &&
      (thirdDigit != 0 <==> thirdDigit in HundredsVocabulary()) &&
      (1 <= r <= 19 ==> r in ScaleVocabulary(s)) &&
      (20 <= r ==> 2 <= r / 10 <= 9 && r / 10 in TensVocabulary() &&
                   (r % 10 != 0 ==> r % 10 in ScaleVocabulary(s)))
  {
    GroupDigits(group);
    ScaleDomain(s);
    var r := Rem(group, 100);
    if 20 <= r {
      assert r / 10 == group / 10 % 10 by {
        DivMod(r, 10, group / 10 % 10, group % 10);
      }
    }
  }

  lemma ScaleDomain(s: Scale)
    ensures forall k :: k in ScaleVocabulary(s) <==> 1 <= k <= 19
  {
    match s
    case Billions =>
    case Millions =>
    case Thousands =>
    case Ones =>
  }

  /** Rust's quotient and remainder by 100 of a group split it into its third digit and its last two digits. */
  lemma GroupDigits(g: int)
    requires 0 <= g < 1000
    ensures Quot(g, 100) == g / 100 && Rem(g, 100) == 10 * (g / 10 % 10) + g % 10
  {
  }

  /** The clause words of a group given by its digits are the rendering of its spelling. */
  lemma DigitsWords(h: int, t: int, o: int, s: Scale)
    requires 0 <= h <= 9 && 0 <= t <= 9 && 0 <= o <= 9
    ensures ClauseWords(h, 10 * t + o, ScaleVocabulary(s), ScaleSuffix(s)) == RenderAll(DigitsSpelling(h, t, o, s))
  {
    var hundreds: seq<Phrase> := if h != 0 then [Hundred(h)] else [];
    var rest: seq<Phrase> :=
      if t == 0 && o == 0 then (if h != 0 then [Bare(s)] else [])
      else if t <= 1 then [Counted(10 * t + o, s)]
      else [Ten(t)] + (if o == 0 then [Bare(s)] else [Counted(o, s)]);
    assert DigitsSpelling(h, t, o, s) == hundreds + rest;
    RenderAllConcat(hundreds, rest);
    HundredsClause(h);
    RestClause(h, t, o, s);
  }

  lemma HundredsClause(h: int)
    requires 0 <= h <= 9
    ensures Lookup(HundredsVocabulary(), h) == RenderAll(if h != 0 then [Hundred(h)] else [])
  {
    if h != 0 {
      assert RenderAll([Hundred(h)]) == [Render(Hundred(h))];
    }
  }

  lemma RestClause(h: int, t: int, o: int, s: Scale)
    requires 0 <= h <= 9 && 0 <= t <= 9 && 0 <= o <= 9
    ensures
      RestWords(h, 10 * t + o, ScaleVocabulary(s), ScaleSuffix(s)) ==
      RenderAll(
        if t == 0 && o == 0 then (if h != 0 then [Bare(s)] else [])
        else if t <= 1 then [Counted(10 * t + o, s)]
        else [Ten(t)] + (if o == 0 then [Bare(s)] else [Counted(o, s)]))
  {
    if t == 0 && o == 0 {
      if h != 0 {
        RenderOne(Bare(s));
      }
    } else if t <= 1 {
      RestCounted(h, 10 * t + o, s);
    } else {
      RestTens(h, t, o, s);
    }
  }

  lemma RenderOne(p: Phrase)
    requires WellFormed(p)
    ensures RenderAll([p]) == [Render(p)]
  {
  }

  lemma RestCounted(h: int, r: int, s: Scale)
    requires 1 <= r <= 19
    ensures RestWords(h, r, ScaleVocabulary(s), ScaleSuffix(s)) == RenderAll([Counted(r, s)])
  {
    assert r in ScaleVocabulary(s);
    RenderOne(Counted(r, s));
  }

  lemma RestTens(h: int, t: int, o: int, s: Scale)
    requires 2 <= t <= 9 && 0 <= o <= 9
    ensures
      RestWords(h, 10 * t + o, ScaleVocabulary(s), ScaleSuffix(s)) ==
      RenderAll([Ten(t)] + (if o == 0 then [Bare(s)] else [Counted(o, s)]))
  {
    var last: seq<Phrase> := if o == 0 then [Bare(s)] else [Counted(o, s)];
    RestOfTens(h, t, o, ScaleVocabulary(s), ScaleSuffix(s));
    RenderAllConcat([Ten(t)], last);
    TensLookup(t);
    UnitsLookup(o, s);
  }

  /** For last two digits 20..99, `translate` looks up the tens digit and then the units digit or writes the bare scale word. */
  lemma RestOfTens(h: int, t: int, o: int, voc: map<int, string>, unit: string)
    requires 2 <= t <= 9 && 0 <= o <= 9
    ensures RestWords(h, 10 * t + o, voc, unit) ==
      Lookup(TensVocabulary(), t) + (if o == 0 then [unit] else Lookup(voc, o))
  {
    var r := 10 * t + o;
    assert r / 10 == t && r % 10 == o;
  }

  lemma TensLookup(t: int)
    requires 2 <= t <= 9
    ensures Lookup(TensVocabulary(), t) == RenderAll([Ten(t)])
  {
    assert t in TensVocabulary();
    RenderOne(Ten(t));
  }

  lemma UnitsLookup(o: int, s: Scale)
    requires 0 <= o <= 9
    ensures
      (if o == 0 then [ScaleSuffix(s)] else Lookup(ScaleVocabulary(s), o)) ==
      RenderAll(if o == 0 then [Bare(s)] else [Counted(o, s)])
  {
    if o == 0 {
      RenderOne(Bare(s));
    } else {
      assert o in ScaleVocabulary(s);
      RenderOne(Counted(o, s));
    }
  }
}
