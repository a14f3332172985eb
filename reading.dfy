// A reference reading of the converter's output. A value is spelled as a
// sequence of abstract phrases (a hundreds word, a tens word, a count with a
// declined scale word, a bare scale word, the minus and zero words), each
// phrase is rendered through the vocabulary the converter uses for it, and a
// reader who adds the phrases up from left to right recovers the value.
// This is what the conversion of src/lib.rs:13-60 is proved against.

module Reading {
  import opened Buffer
  import opened Vocabulary

  /** The four three-digit groups, in the order they are written. */
  datatype Scale = Billions | Millions | Thousands | Ones

  /** The power of one thousand a group stands for. */
  function Multiplier(s: Scale): nat {
    match s
    case Billions => 1_000_000_000
    case Millions => 1_000_000
    case Thousands => 1000
    case Ones => 1
  }

  /** The count table each group is translated with (src/lib.rs:26,29,32,35). */
  function ScaleVocabulary(s: Scale): map<int, string> {
    match s
    case Billions => BillionsVocabulary()
    case Millions => MillionsVocabulary()
    case Thousands => ThousandsVocabulary()
    case Ones => OneToNineteenVocabulary()
  }

  /** The bare scale word each group is translated with; the units group has none. */
  function ScaleSuffix(s: Scale): string {
    match s
    case Billions => "миллиардов"
    case Millions => "миллионов"
    case Thousands => "тысяч"
    case Ones => ""
  }

  datatype Phrase =
    | Minus
    | Zero
    | Hundred(digit: int)              // digit * 100
    | Ten(digit: int)                  // digit * 10, only from twenty on
    | Counted(count: int, scale: Scale) // a count 1..19 with its declined scale word
    | Bare(scale: Scale)               // the undeclined scale word closing a group

  /** Phrases whose table lookups are defined; tens start at twenty. */
  predicate WellFormed(p: Phrase) {
    match p
    case Hundred(d) => 1 <= d <= 9
    case Ten(d) => 2 <= d <= 9
    case Counted(k, _) => 1 <= k <= 19
    case _ => true
  }

  function Render(p: Phrase): string
    requires WellFormed(p)
  {
    match p
    case Minus => MinusWord
    case Zero => ZeroWord
    case Hundred(d) => HundredsVocabulary()[d]
    case Ten(d) => TensVocabulary()[d]
    case Counted(k, s) => ScaleVocabulary(s)[k]
    case Bare(s) => ScaleSuffix(s)
  }

  function RenderAll(ps: seq<Phrase>): (ws: seq<string>)
    requires forall p :: p in ps ==> WellFormed(p)
    ensures |ws| == |ps| && forall i :: 0 <= i < |ps| ==> ws[i] == Render(ps[i])
  {
    if ps == [] then [] else [Render(ps[0])] + RenderAll(ps[1..])
  }

  lemma RenderAllConcat(xs: seq<Phrase>, ys: seq<Phrase>)
    requires forall p :: p in xs ==> WellFormed(p)
    requires forall p :: p in ys ==> WellFormed(p)
    ensures RenderAll(xs + ys) == RenderAll(xs) + RenderAll(ys)
  {
    assert forall p :: p in xs + ys ==> WellFormed(p);
  }

  /** Every rendered phrase is well spaced; only Zero renders as the zero word, only Minus as the minus word, only Bare(Ones) as nothing. */
  lemma RenderFacts(p: Phrase)
    requires WellFormed(p)
    ensures WellSpaced(Render(p))
    ensures Render(p) == ZeroWord <==> p == Zero
    ensures Render(p) == MinusWord <==> p == Minus
    ensures Render(p) == [] <==> p == Bare(Ones)
  {
    match p
    case Hundred(d) => HundredsWords();
    case Ten(d) => TensWords();
    case Counted(k, s) =>
      {
        match s
        case Billions => BillionsWords();
        case Millions => MillionsWords();
        case Thousands => ThousandsWords();
        case Ones => OneToNineteenWords();
      }
    case _ =>
  }

  /** What a reader holds after some phrases: the value of the closed groups and of the open one. */
  datatype Tally = Tally(closed: int, open: int)

  function Step(t: Tally, p: Phrase): Tally {
    match p
    case Minus => t
    case Zero => t
    case Hundred(d) => Tally(t.closed, t.open + 100 * d)
    case Ten(d) => Tally(t.closed, t.open + 10 * d)
    case Counted(k, s) => Tally(t.closed + (t.open + k) * Multiplier(s), 0)
    case Bare(s) => Tally(t.closed + t.open * Multiplier(s), 0)
  }

  /** Reads the phrases from left to right. */
  function Read(t: Tally, ps: seq<Phrase>): Tally
    decreases |ps|
  {
    if ps == [] then t else Read(Step(t, ps[0]), ps[1..])
  }

  /** The number a reader takes the phrases to denote; a leading minus negates the rest. */
  function Meaning(ps: seq<Phrase>): int {
    if ps != [] && ps[0] == Minus then
      var t := Read(Tally(0, 0), ps[1..]); -(t.closed + t.open)
    else
      var t := Read(Tally(0, 0), ps); t.closed + t.open
  }

  lemma {:induction false} ReadConcat(t: Tally, xs: seq<Phrase>, ys: seq<Phrase>)
    ensures Read(t, xs + ys) == Read(Read(t, xs), ys)
    decreases |xs|
  {
    if xs == [] {
      assert xs + ys == ys;
    } else {
      assert (xs + ys)[1..] == xs[1..] + ys;
      ReadConcat(Step(t, xs[0]), xs[1..], ys);
    }
  }

  /**
   * The spelling of one group 0..999 in scale `s`, from its digits: the
   * hundreds word, then the count 1..19 with its declined scale word, or a
   * tens word followed by the units count or by the bare scale word; a group
   * of hundreds alone ends in the bare scale word, and an empty group
   * contributes nothing.
   */
  function GroupSpelling(g: int, s: Scale): (ps: seq<Phrase>)
    requires 0 <= g < 1000
    ensures forall p :: p in ps ==> WellFormed(p) && p != Minus && p != Zero
    ensures ps == [] <==> g == 0
  {
    DigitsSpelling(g / 100, g / 10 % 10, g % 10, s)
  }

  function DigitsSpelling(h: int, t: int, o: int, s: Scale): (ps: seq<Phrase>)
    requires 0 <= h <= 9 && 0 <= t <= 9 && 0 <= o <= 9
    ensures forall p :: p in ps ==> WellFormed(p) && p != Minus && p != Zero
    ensures ps == [] <==> h == t == o == 0
  {
    (if h != 0 then [Hundred(h)] else []) + RestSpelling(h, t, o, s)
  }

  /** What follows the hundreds word: the phrases of the last two digits, and the scale word. */
  function RestSpelling(h: int, t: int, o: int, s: Scale): (ps: seq<Phrase>)
    requires 0 <= h <= 9 && 0 <= t <= 9 && 0 <= o <= 9
    ensures forall p :: p in ps ==> WellFormed(p) && p != Minus && p != Zero
    ensures ps == [] <==> h == t == o == 0
  {
    if t == 0 && o == 0 then (if h != 0 then [Bare(s)] else [])
    else if t <= 1 then [Counted(10 * t + o, s)]
    else [Ten(t)] + (if o == 0 then [Bare(s)] else [Counted(o, s)])
  }

  lemma ReadSingle(t: Tally, p: Phrase)
    ensures Read(t, [p]) == Step(t, p)
  {
    assert [p][1..] == [];
  }

  lemma DigitsSpellingMeaning(closed: int, h: int, t: int, o: int, s: Scale)
    requires 0 <= h <= 9 && 0 <= t <= 9 && 0 <= o <= 9
    ensures Read(Tally(closed, 0), DigitsSpelling(h, t, o, s)) == Tally(closed + (100 * h + 10 * t + o) * Multiplier(s), 0)
  {
    var start := Tally(closed, 0);
    var head: seq<Phrase> := if h != 0 then [Hundred(h)] else [];
    ReadConcat(start, head, RestSpelling(h, t, o, s));
    if h != 0 {
      ReadSingle(start, Hundred(h));
    }
    RestSpellingMeaning(closed, h, t, o, s);
  }

  /** Reading the rest of a group whose hundreds are open closes the group. */
  lemma RestSpellingMeaning(closed: int, h: int, t: int, o: int, s: Scale)
    requires 0 <= h <= 9 && 0 <= t <= 9 && 0 <= o <= 9
    ensures Read(Tally(closed, 100 * h), RestSpelling(h, t, o, s)) == Tally(closed + (100 * h + 10 * t + o) * Multiplier(s), 0)
  {
    var open := 100 * h;
    if t == 0 && o == 0 {
      if h != 0 {
        ReadSingle(Tally(closed, open), Bare(s));
      }
    } else if t <= 1 {
      ReadSingle(Tally(closed, open), Counted(10 * t + o, s));
    } else {
      TensMeaning(closed, open, t, o, s);
    }
  }

  lemma TensMeaning(closed: int, open: int, t: int, o: int, s: Scale)
    requires 2 <= t <= 9 && 0 <= o <= 9
    ensures Read(Tally(closed, open), [Ten(t)] + (if o == 0 then [Bare(s)] else [Counted(o, s)])) ==
      Tally(closed + (open + 10 * t + o) * Multiplier(s), 0)
  {
    var last: seq<Phrase> := if o == 0 then [Bare(s)] else [Counted(o, s)];
    ReadConcat(Tally(closed, open), [Ten(t)], last);
    ReadSingle(Tally(closed, open), Ten(t));
    ReadSingle(Tally(closed, open + 10 * t), last[0]);
    assert last == [last[0]];
  }

  /** A group 0..999 is its hundreds, tens and units digits. */
  lemma GroupDigitsSum(g: int)
    requires 0 <= g < 1000
    ensures 0 <= g / 100 <= 9 && 0 <= g / 10 % 10 <= 9
    ensures 100 * (g / 100) + 10 * (g / 10 % 10) + g % 10 == g
  {
    DivMod(g, 10, g / 10, g % 10);
    DivMod(g / 10, 10, g / 100, g / 10 % 10);
  }

  /** Conversely, three decimal digits spell the group they make up. */
  lemma GroupByDigits(g: int, h: int, t: int, o: int, s: Scale)
    requires 0 <= h <= 9 && 0 <= t <= 9 && 0 <= o <= 9
    requires g == 100 * h + 10 * t + o
    ensures 0 <= g < 1000 && GroupSpelling(g, s) == DigitsSpelling(h, t, o, s)
  {
    DivMod(g, 100, h, 10 * t + o);
    DivMod(g, 10, 10 * h + t, o);
    DivMod(10 * h + t, 10, h, t);
  }

  /** Reading a group's spelling adds the group's value times its scale and leaves no group open. */
  lemma GroupSpellingMeaning(closed: int, g: int, s: Scale)
    requires 0 <= g < 1000
    ensures Read(Tally(closed, 0), GroupSpelling(g, s)) == Tally(closed + g * Multiplier(s), 0)
  {
    GroupDigitsSum(g);
    DigitsSpellingMeaning(closed, g / 100, g / 10 % 10, g % 10, s);
  }

  /** Quotient and remainder are the unique pair with x == c * a + b and 0 <= b < c. */
  lemma DivMod(x: int, c: int, a: int, b: int)
    requires c > 0 && x == c * a + b && 0 <= b < c
    ensures x / c == a && x % c == b
  {
    var q, r := x / c, x % c;
    assert c * (a - q) == r - b;
    if a > q {
      MulAtLeast(c, a - q);
    } else if a < q {
      MulAtLeast(c, q - a);
    }
  }

  lemma MulAtLeast(c: int, k: int)
    requires c > 0 && k >= 1
    ensures c * k >= c
  {
    assert c * k == c * (k - 1) + c;
  }

  /** The value 10^12: only the magnitude modulo it is spelled. */
  const Trillion: int := 1_000_000_000_000

  /**
   * The spelling of a value: "минус" for a negative value, then "ноль" for
   * zero or, otherwise, the four groups of the magnitude modulo 10^12.
   */
  function Spelling(v: int): (ps: seq<Phrase>)
    ensures forall p :: p in ps ==> WellFormed(p)
  {
    if v < 0 then [Minus] + MagnitudeSpelling(-v) else MagnitudeSpelling(v)
  }

  function MagnitudeSpelling(n: nat): (ps: seq<Phrase>)
    ensures forall p :: p in ps ==> WellFormed(p) && p != Minus
    ensures Zero in ps <==> n == 0
  {
    if n == 0 then [Zero] else GroupsSpelling(n % Trillion)
  }

  /** The four groups of a number below 10^12, billions first. */
  function GroupsSpelling(r: nat): (ps: seq<Phrase>)
    requires r < Trillion
    ensures forall p :: p in ps ==> WellFormed(p) && p != Minus && p != Zero
  {
    GroupSpelling(r / 1_000_000_000, Billions) +
    GroupSpelling(r / 1_000_000 % 1000, Millions) +
    GroupSpelling(r / 1000 % 1000, Thousands) +
    GroupSpelling(r % 1000, Ones)
  }

  /** A number below 10^12 is the sum of its four groups. */
  lemma GroupsSum(r: int)
    requires 0 <= r < Trillion
    ensures 0 <= r / 1_000_000_000 < 1000
    ensures r == r / 1_000_000_000 * 1_000_000_000 + r / 1_000_000 % 1000 * 1_000_000 + r / 1000 % 1000 * 1000 + r % 1000
  {
    var q1, q2 := r / 1000, r / 1_000_000;
    DivMod(r, 1000, q1, r % 1000);
    DivMod(q1, 1000, q1 / 1000, q1 % 1000);
    DivMod(r, 1_000_000, q1 / 1000, q1 % 1000 * 1000 + r % 1000);
    DivMod(q2, 1000, q2 / 1000, q2 % 1000);
    DivMod(r, 1_000_000_000, q2 / 1000, q2 % 1000 * 1_000_000 + q1 % 1000 * 1000 + r % 1000);
  }

  lemma Read4(t: Tally, a: seq<Phrase>, b: seq<Phrase>, c: seq<Phrase>, d: seq<Phrase>)
    ensures Read(t, a + b + c + d) == Read(Read(Read(Read(t, a), b), c), d)
  {
    ReadConcat(t, a, b);
    ReadConcat(t, a + b, c);
    ReadConcat(t, a + b + c, d);
  }

  /** The spelling of a magnitude is read back as that magnitude modulo 10^12. */
  lemma MagnitudeMeaning(n: nat)
    ensures Read(Tally(0, 0), MagnitudeSpelling(n)) == Tally(n % Trillion, 0)
  {
    if n != 0 {
      GroupsMeaning(n % Trillion);
    }
  }

  /** The four groups of a number below 10^12 are read back as that number. */
  lemma GroupsMeaning(r: nat)
    requires r < Trillion
    ensures Read(Tally(0, 0), GroupsSpelling(r)) == Tally(r, 0)
  {
    GroupsSum(r);
    FourGroupsMeaning(r / 1_000_000_000, r / 1_000_000 % 1000, r / 1000 % 1000, r % 1000);
  }

  /** Reading four groups, billions first, adds up their values times their scales. */
  lemma FourGroupsMeaning(b: int, m: int, t: int, u: int)
    requires 0 <= b < 1000 && 0 <= m < 1000 && 0 <= t < 1000 && 0 <= u < 1000
    ensures Read(Tally(0, 0), GroupSpelling(b, Billions) + GroupSpelling(m, Millions) +
                              GroupSpelling(t, Thousands) + GroupSpelling(u, Ones)) ==
      Tally(b * 1_000_000_000 + m * 1_000_000 + t * 1000 + u, 0)
  {
    var gb, gm, gt, gu := GroupSpelling(b, Billions), GroupSpelling(m, Millions),
                          GroupSpelling(t, Thousands), GroupSpelling(u, Ones);
    var c1 := b * 1_000_000_000;
    var c2 := c1 + m * 1_000_000;
    var c3 := c2 + t * 1000;
    Read4(Tally(0, 0), gb, gm, gt, gu);
    assert Read(Tally(0, 0), gb) == Tally(c1, 0) by {
      GroupSpellingMeaning(0, b, Billions);
    }
    assert Read(Tally(c1, 0), gm) == Tally(c2, 0) by {
      GroupSpellingMeaning(c1, m, Millions);
    }
    assert Read(Tally(c2, 0), gt) == Tally(c3, 0) by {
      GroupSpellingMeaning(c2, t, Thousands);
    }
    assert Read(Tally(c3, 0), gu) == Tally(c3 + u, 0) by {
      GroupSpellingMeaning(c3, u, Ones);
    }
  }

  /**
   * The spelling of a value denotes the value, with the magnitude taken
   * modulo 10^12 and the sign kept.
   */
  lemma SpellingMeaning(v: int)
    ensures Meaning(Spelling(v)) == if v < 0 then -((-v) % Trillion) else v % Trillion
  {
    var n: nat := if v < 0 then -v else v;
    var ps := MagnitudeSpelling(n);
    MagnitudeMeaning(n);
    if v < 0 {
      MeaningNegated(ps);
    } else {
      MeaningUnsigned(ps);
    }
  }

  /** Phrases that do not start with the minus word mean what a reader adds up. */
  lemma MeaningUnsigned(ps: seq<Phrase>)
    requires forall p :: p in ps ==> p != Minus
    ensures Meaning(ps) == Read(Tally(0, 0), ps).closed + Read(Tally(0, 0), ps).open
  {
    if ps != [] {
      assert ps[0] in ps;
    }
  }

  /** A leading minus word negates what the rest adds up to. */
  lemma MeaningNegated(ps: seq<Phrase>)
    ensures Meaning([Minus] + ps) == -(Read(Tally(0, 0), ps).closed + Read(Tally(0, 0), ps).open)
  {
    assert ([Minus] + ps)[1..] == ps;
  }

  /** Below 10^12 in magnitude, the spelling of a value denotes exactly that value. */
  lemma SpellingDenotes(v: int)
    requires -Trillion < v < Trillion
    ensures Meaning(Spelling(v)) == v
  {
    SpellingMeaning(v);
    SmallMagnitude(v);
  }

  lemma SmallMagnitude(v: int)
    requires -Trillion < v < Trillion
    ensures (if v < 0 then -((-v) % Trillion) else v % Trillion) == v
  {
  }

  /** Distinct values below 10^12 in magnitude are spelled differently. */
  lemma SpellingInjective(v: int, w: int)
    requires -Trillion < v < Trillion && -Trillion < w < Trillion
    requires Spelling(v) == Spelling(w)
    ensures v == w
  {
    SpellingDenotes(v);
    SpellingDenotes(w);
  }
}
