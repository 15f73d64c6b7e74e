/** `generateAccountNumber`: three groups of four random decimal digits
    joined as `NNNN-NNNN-NNNN`. The twelve `Math.floor(Math.random() * 10)`
    draws are an input, in draw order. */
module AccountNumber {
  import opened Common

  /** A sequence of twelve draws, each in 0..9. */
  predicate ValidDraws(draws: seq<int>) {
    |draws| == 12 && forall i :: 0 <= i < 12 ==> 0 <= draws[i] <= 9
  }

  /** `Array.from({ length: 4 }, getRandomDigit).join('')` over four draws. */
  function Group(d: seq<int>): (g: string)
    requires |d| == 4 && forall i :: 0 <= i < 4 ==> 0 <= d[i] <= 9
    ensures |g| == 4 && AllDigits(g)
    ensures forall i :: 0 <= i < 4 ==> DigitValue(g[i]) == d[i]
  {
    [DigitChar(d[0]), DigitChar(d[1]), DigitChar(d[2]), DigitChar(d[3])]
  }

  function Generate(draws: seq<int>): (s: string)
    requires ValidDraws(draws)
  {
    Group(draws[0..4]) + "-" + Group(draws[4..8]) + "-" + Group(draws[8..12])
  }

  /** The `NNNN-NNNN-NNNN` format: fourteen characters, dashes at 4 and 9,
      digits elsewhere. */
  predicate IsAccountNumber(s: string) {
    |s| == 14 && s[4] == '-' && s[9] == '-' &&
    forall i :: 0 <= i < 14 && i != 4 && i != 9 ==> IsDigitChar(s[i])
  }

  /** Position of the k-th digit (0 <= k < 12) inside the formatted number. */
  function DigitPosition(k: int): (p: int)
    requires 0 <= k < 12
    ensures 0 <= p < 14 && p != 4 && p != 9
  {
    if k < 4 then k else if k < 8 then k + 1 else k + 2
  }

  /** The twelve digit positions read in order. */
  function DigitsOf(s: string): (d: seq<int>)
    requires IsAccountNumber(s)
    ensures ValidDraws(d)
  {
    seq(12, k requires 0 <= k < 12 => DigitValue(s[DigitPosition(k)]))
  }

  /** The generated number always has the `NNNN-NNNN-NNNN` format, and each
      digit position holds the corresponding draw, leading zeros included. */
  lemma GenerateFormat(draws: seq<int>)
    requires ValidDraws(draws)
    ensures IsAccountNumber(Generate(draws))
    ensures forall k :: 0 <= k < 12 ==> Generate(draws)[DigitPosition(k)] == DigitChar(draws[k])
  {
    var s := Generate(draws);
    var g1, g2, g3 := Group(draws[0..4]), Group(draws[4..8]), Group(draws[8..12]);
    assert s == g1 + "-" + g2 + "-" + g3;
    assert |s| == 14;
    forall k | 0 <= k < 12 ensures s[DigitPosition(k)] == DigitChar(draws[k]) {
      if k < 4 {
        assert s[k] == g1[k];
      } else if k < 8 {
        assert s[k + 1] == g2[k - 4];
      } else {
        assert s[k + 2] == g3[k - 8];
      }
    }
  }

  /** Reading the digit positions gives back the draws, in draw order. */
  lemma DigitsOfGenerate(draws: seq<int>)
    requires ValidDraws(draws)
    ensures IsAccountNumber(Generate(draws))
    ensures DigitsOf(Generate(draws)) == draws
  {
    GenerateFormat(draws);
    var d := DigitsOf(Generate(draws));
    forall k | 0 <= k < 12 ensures d[k] == draws[k] {
      assert Generate(draws)[DigitPosition(k)] == DigitChar(draws[k]);
    }
  }

  /** Conversely, every well-formed number is generated by its own digits:
      the generator reaches exactly the strings of the format. */
  lemma GenerateDigitsOf(s: string)
    requires IsAccountNumber(s)
    ensures Generate(DigitsOf(s)) == s
  {
    var d := DigitsOf(s);
    var t := Generate(d);
    GenerateFormat(d);
    forall i | 0 <= i < 14 ensures t[i] == s[i] {
      if i != 4 && i != 9 {
        var k := if i < 4 then i else if i < 9 then i - 1 else i - 2;
        assert DigitPosition(k) == i;
        DigitCharOfValue(s[i]);
      }
    }
  }
}
