# number_to_words_ru in Dafny

A model of the Rust crate `number_to_words_ru`. The crate's one public
function `number_to_words(value: i64) -> String` writes a number out in
Russian words: "минус" for a negative value, then "ноль" for zero, or the
billions, millions, thousands and units groups of the magnitude. Each group
is written by `translate` from a hundreds word, a tens word and a count word
whose scale word is already declined in the table ("одна тысяча", "две
тысячи", "пять тысяч"), or by the bare scale word ("тысяч") when the last two
digits are 00 after a non-zero hundreds digit, or are 20, 30, …, 90. A group
of 0 writes nothing. Words are pushed onto a growing buffer by `append`, which puts
one space between two non-empty pieces.

The model has six modules:

- `Buffer` (`buffer.dfy`): the buffer discipline of `append`. `Join(words)`
  is the reference meaning of a buffer built from `words`: the non-empty words
  separated by single spaces. The `Append` method is proved to compute it.
- `Vocabulary` (`vocabulary.dfy`): the six tables, copied verbatim as maps.
  Their domains are proved, and every entry is proved a non-empty, well-spaced
  phrase other than "ноль" and "минус".
- `Reading` (`reading.dfy`): an independent reference for the output. A value
  is spelled as a sequence of abstract phrases (a hundreds word, a tens word, a
  count with its scale, a bare scale word, minus, zero). A reader who adds
  these up from left to right recovers the value with its magnitude taken
  modulo 10^12. Below 10^12 the
  spelling is therefore injective.
- `NumberToWordsRu` (`number_to_words.dfy`): `Translate` and `NumberToWords`
  as methods that thread the buffer through `Append`, exactly as the source
  does. Rust's truncating `/` and `%` on a group are written out as `Quot` and `Rem`. Elsewhere the operands are never negative (the magnitude after the sign step, and the last two digits 20..99), so Dafny's own `/` and `%` agree with Rust's there.
  `NumberToWords(value)` is proved to return `Words(value)`, which is the
  reference spelling rendered through the tables and joined.
- `Properties` (`properties.dfy`): what the output looks like for every
  value: where "ноль" and "минус" appear, the spacing, and the truncation
  modulo 10^12.
- `TestVectors` (`test_vectors.dfy`): some of the crate's own test values
  and their outputs.

The tables keep the crate's own spellings: "пятьнадцать", "семтьнадцать" in
the units table, and "семьнадцать" in the three scale tables.

## Model

| member | source | states |
|---|---|---|
| Buffer.Append | src/lib.rs:62-67 | the new buffer joins the old buffer and the word with one space exactly when both are non-empty, and stays well spaced when both inputs are |
| Buffer.JoinPair | src/lib.rs:63-66 | joining two pieces gives the second when the first is empty, the first when the second is empty, and both with one space between otherwise |
| Buffer.JoinConcat | src/lib.rs:62-67 | appending words one by one and appending two blocks that were each built by appending agree |
| Buffer.JoinWellSpaced | src/lib.rs:62-67 | appending well-spaced pieces never produces a leading, trailing or doubled space |
| Buffer.JoinSpaceFree | src/lib.rs:62-67 | a buffer without a space is empty or equal to one of the pieces appended to it |
| Vocabulary.OneToNineteenVocabulary | src/lib.rs:69-91 | the units table has exactly the keys 1..19 |
| Vocabulary.TensVocabulary | src/lib.rs:93-105 | the tens table has exactly the keys 1..9 |
| Vocabulary.HundredsVocabulary | src/lib.rs:107-119 | the hundreds table has exactly the keys 1..9 |
| Vocabulary.ThousandsVocabulary | src/lib.rs:121-143 | the thousands table has exactly the keys 1..19 |
| Vocabulary.MillionsVocabulary | src/lib.rs:145-167 | the millions table has exactly the keys 1..19 |
| Vocabulary.BillionsVocabulary | src/lib.rs:169-191 | the billions table has exactly the keys 1..19 |
| Vocabulary.OneToNineteenWords | src/lib.rs:69-91 | every units entry is a non-empty, well-spaced phrase other than "ноль" and "минус" |
| Vocabulary.TensWords | src/lib.rs:93-105 | every tens entry is a non-empty, well-spaced phrase other than "ноль" and "минус" |
| Vocabulary.HundredsWords | src/lib.rs:107-119 | every hundreds entry is a non-empty, well-spaced phrase other than "ноль" and "минус" |
| Vocabulary.ThousandsWords | src/lib.rs:121-143 | every thousands entry is a non-empty, well-spaced phrase other than "ноль" and "минус" |
| Vocabulary.MillionsWords | src/lib.rs:145-167 | every millions entry is a non-empty, well-spaced phrase other than "ноль" and "минус" |
| Vocabulary.BillionsWords | src/lib.rs:169-191 | every billions entry is a non-empty, well-spaced phrase other than "ноль" and "минус" |
| NumberToWordsRu.QuotTruncates | src/lib.rs:42 | `Quot`, Rust's `/`, truncates toward zero: for a non-negative dividend the quotient is the largest multiple not above it, and for a negative dividend the smallest multiple not below it |
| NumberToWordsRu.Lookup | src/lib.rs:43-55 | `get(&key).map(append)` appends at most one word: the table's entry when the key is present, and nothing when it is missing |
| NumberToWordsRu.Rem | src/lib.rs:44 | Rust's `%` keeps the sign of the dividend, lies strictly within the divisor in magnitude, and recombines with the truncated quotient to the dividend |
| NumberToWordsRu.Translate | src/lib.rs:41-60 | for any group, table and bare scale word, the new buffer is the old buffer joined with the words of the group's case analysis: the hundreds word, then the bare scale word (last two digits 0, hundreds digit not 0), the count entry (1..19), the tens word followed by the bare scale word or the units entry (20..99), or nothing; group 0 leaves the buffer unchanged |
| NumberToWordsRu.GroupLookupsHit | src/lib.rs:42-55 | for a group 0..999 the hundreds lookup hits exactly when the hundreds digit is not 0; every count looked up is 1..19 and hits; the tens digit is 2..9 and hits |
| NumberToWordsRu.GroupWordsSpelled | src/lib.rs:41-60 | for a group 0..999 the words `translate` appends with a scale's table and bare scale word are the rendering of the group's reference spelling |
| NumberToWordsRu.NumberToWords | src/lib.rs:13-38 | for every i64 except the least, the output is the reference words of the value: its spelling, sign and magnitude modulo 10^12, rendered through the tables and joined with single spaces |
| NumberToWordsRu.SignedSpelling | src/lib.rs:16-20 | the rendered spelling of a negative value is "минус" followed by the rendered spelling of its magnitude |
| NumberToWordsRu.WordsOfZero | src/lib.rs:22-23 | the reference output for zero is "ноль" alone |
| NumberToWordsRu.MillionsGroup | src/lib.rs:28 | the source's `(value % 1_000_000_000) / 1_000_000` is the millions group of the magnitude modulo 10^12 |
| NumberToWordsRu.ThousandsGroup | src/lib.rs:31 | the source's `(value % 1_000_000) / 1000` is the thousands group of the magnitude modulo 10^12 |
| NumberToWordsRu.UnitsGroup | src/lib.rs:34 | the source's `value % 1000` is the units group of the magnitude modulo 10^12 |
| NumberToWordsRu.MagnitudeWords | src/lib.rs:24-36 | for a non-zero magnitude the words of the four `translate` calls, in the order billions, millions, thousands, units, are the rendered reference spelling of the magnitude |
| NumberToWordsRu.WordsByGroups | src/lib.rs:16-36 | for a non-zero value the reference output is the sign word followed by the four translated groups |
| Reading.RenderFacts | src/lib.rs:69-191 | every rendered phrase is well spaced; only the zero phrase renders as "ноль", only the minus phrase as "минус", and only the bare units scale renders as nothing |
| Reading.GroupSpellingMeaning | src/lib.rs:41-60 | a reader of a group's spelling adds the group's value times its scale and leaves no group open |
| Reading.MagnitudeMeaning | src/lib.rs:22-36 | the spelling of a magnitude is read back as the magnitude modulo 10^12 |
| Reading.SpellingMeaning | src/lib.rs:13-38 | the spelling of a value denotes the value with its magnitude taken modulo 10^12 and its sign kept |
| Reading.SpellingDenotes | src/lib.rs:13-38 | below 10^12 in magnitude the spelling of a value denotes exactly that value |
| Reading.SpellingInjective | src/lib.rs:13-38 | distinct values below 10^12 in magnitude have distinct spellings |
| Properties.ZeroWordOnlyForZero | src/lib.rs:22-23 | "ноль" is among the words written for a value exactly when the value is zero |
| Properties.MinusWordOnlyForNegative | src/lib.rs:17-20 | "минус" is among the words written for a value exactly when the value is negative |
| Properties.WordsZero | src/lib.rs:22-23 | the whole output is "ноль" exactly when the value is zero |
| Properties.WordsNegative | src/lib.rs:17-20 | the output for a negative value is "минус", followed by a space and the output for its magnitude when that is not empty |
| Properties.WordsWellSpaced | src/lib.rs:62-67 | no output starts or ends with a space or holds two spaces in a row |
| Properties.WordsModuloTrillion | src/lib.rs:25 | two non-zero values of the same sign whose magnitudes agree modulo 10^12 get the same output |
| Properties.WordsOfTrillions | src/lib.rs:22-36 | a non-zero multiple of 10^12 gets the empty output, or "минус" alone when it is negative |
| TestVectors.ExampleZero | src/lib.rs:199 | 0 is written "ноль" |
| TestVectors.ExampleOne | src/lib.rs:200 | 1 is written "один" |
| TestVectors.ExampleMinusOne | src/lib.rs:201 | -1 is written "минус один" |
| TestVectors.ExampleMinus46 | src/lib.rs:209 | -46 is written "минус сорок шесть" |
| TestVectors.Example215 | src/lib.rs:213 | 215 is written "двести пятьнадцать", with the table's spelling of fifteen |
| TestVectors.Example7100 | src/lib.rs:221 | 7 100 is written "семь тысяч сто" |
| TestVectors.Example21000 | src/lib.rs:225 | 21 000 is written "двадцать одна тысяча" |
| TestVectors.Example100000 | src/lib.rs:227 | 100 000 is written "сто тысяч" |
| TestVectors.Example20000000 | src/lib.rs:236 | 20 000 000 is written "двадцать миллионов" |
| TestVectors.Example991991401280 | src/lib.rs:250-253 | 991 991 401 280 is written as its four group texts "девятьсот девяносто один миллиард", "девятьсот девяносто один миллион", "четыреста одна тысяча" and "двести восемьдесят", separated by single spaces |

## Left out

- NumberToWordsRu.NumberToWords: the least i64 is excluded by the precondition. Its `value.abs()` overflows, which panics in a debug build and wraps in a release build; neither behaviour is modelled.
- Integer width: values are unbounded integers restricted to the i64 range. Nothing else in the source can overflow inside that range.
- The buffer is a string value passed in and returned. The source's `&mut String` and the cost of growing it are not modelled.
- The tables are modelled as maps. The cost of building a `HashMap` on every call is not modelled.
- Strings are sequences of characters. UTF-8 encoding and byte lengths are not modelled.
- The doc-test at src/lib.rs:3-12 and the test harness are not modelled.
- Test vectors: only a selection of the crate's test values is proved: 0, 1, -1, -46, 215, 7 100, 21 000, 100 000, 20 000 000 and 991 991 401 280. The other values are not proved.
- TestVectors.Example991991401280: states the output as the four group texts concatenated with single spaces rather than as one string literal. It is the same string.
- Russian grammar: the model reproduces the source's tables and choices. It does not judge whether the declensions or spellings are correct Russian.
- Injectivity of the output: it is proved for the phrase spelling (`Reading.SpellingInjective`), not for the rendered string.
