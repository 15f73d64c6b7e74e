/** `changeNumberToKorean`: reads an account number aloud by replacing each
    digit with its Sino-Korean syllable and each dash with a space. A
    character missing from the table maps to `undefined`, which `join('')`
    renders as the empty string. */
module KoreanNumber {
  import opened Common
  import AccountNumber

  /** The lookup table `numberMap`. */
  function Syllable(c: char): (r: Option<char>)
  {
    match c
    case '0' => Some('영')
    case '1' => Some('일')
    case '2' => Some('이')
    case '3' => Some('삼')
    case '4' => Some('사')
    case '5' => Some('오')
    case '6' => Some('육')
    case '7' => Some('칠')
    case '8' => Some('팔')
    case '9' => Some('구')
    case '-' => Some(' ')
    case _ => None
  }

  /** What one character contributes to the joined output. */
  function Piece(c: char): (r: string)
    ensures |r| <= 1
    ensures |r| == 1 <==> Syllable(c).Some?
  {
    match Syllable(c)
    case Some(k) => [k]
    case None => ""
  }

  /** `s.split('').map((char) => numberMap[char]).join('')`. */
  function ToKorean(s: string): string
  {
    if |s| == 0 then "" else Piece(s[0]) + ToKorean(s[1..])
  }

  predicate AllMapped(s: string) {
    forall i :: 0 <= i < |s| ==> Syllable(s[i]).Some?
  }

  /** The syllables for 0 through 9, in order. */
  const DigitSyllables: string := "영일이삼사오육칠팔구"

  /** The table itself: digit d reads as the d-th syllable, the dash as a
      space, and nothing else is in it. */
  lemma TableEntries()
    ensures forall d :: 0 <= d <= 9 ==> Syllable(DigitChar(d)) == Some(DigitSyllables[d])
    ensures Syllable('-') == Some(' ')
    ensures forall c :: !IsDigitChar(c) && c != '-' ==> Syllable(c) == None
  {
    forall d | 0 <= d <= 9 ensures Syllable(DigitChar(d)) == Some(DigitSyllables[d]) {
      if d == 0 {} else if d == 1 {} else if d == 2 {} else if d == 3 {} else if d == 4 {}
      else if d == 5 {} else if d == 6 {} else if d == 7 {} else if d == 8 {} else {}
    }
  }

  /** A character outside the table contributes nothing. */
  lemma UnmappedVanishes(a: string, c: char, b: string)
    requires Syllable(c).None?
    ensures ToKorean(a + [c] + b) == ToKorean(a) + ToKorean(b)
  {
    ToKoreanAppend(a + [c], b);
    ToKoreanAppend(a, [c]);
    assert ToKorean([c]) == Piece(c) + ToKorean([c][1..]);
  }

  /** The conversion is a string homomorphism: it works character by character. */
  lemma {:induction false} ToKoreanAppend(a: string, b: string)
    ensures ToKorean(a + b) == ToKorean(a) + ToKorean(b)
  {
    if |a| == 0 {
      assert a + b == b;
    } else {
      assert (a + b)[0] == a[0];
      assert (a + b)[1..] == a[1..] + b;
      ToKoreanAppend(a[1..], b);
    }
  }

  /** The output is never longer than the input, and it is exactly as long
      precisely when every character is in the table. */
  lemma {:induction false} ToKoreanLength(s: string)
    ensures |ToKorean(s)| <= |s|
    ensures |ToKorean(s)| == |s| <==> AllMapped(s)
  {
    if |s| > 0 {
      ToKoreanLength(s[1..]);
      if AllMapped(s) {
        assert AllMapped(s[1..]) by {
          forall i | 0 <= i < |s[1..]| ensures Syllable(s[1..][i]).Some? {
            assert s[1..][i] == s[i + 1];
          }
        }
      }
      if |ToKorean(s)| == |s| {
        forall i | 0 <= i < |s| ensures Syllable(s[i]).Some? {
          if i > 0 { assert s[i] == s[1..][i - 1]; }
        }
      }
    }
  }

  /** Position by position, when every character is in the table. */
  lemma {:induction false} ToKoreanAt(s: string, i: nat)
    requires AllMapped(s) && i < |s|
    ensures |ToKorean(s)| == |s|
    ensures ToKorean(s)[i] == Syllable(s[i]).value
  {
    ToKoreanLength(s);
    if i > 0 {
      assert AllMapped(s[1..]) by {
        forall j | 0 <= j < |s[1..]| ensures Syllable(s[1..][j]).Some? {
          assert s[1..][j] == s[j + 1];
        }
      }
      ToKoreanAt(s[1..], i - 1);
    }
  }

  /** Read aloud, a generated account number has fourteen characters with
      spaces where the dashes were and, at the position of the k-th digit, the
      syllable of the k-th draw. */
  lemma KoreanOfGenerated(draws: seq<int>)
    requires AccountNumber.ValidDraws(draws)
    ensures |ToKorean(AccountNumber.Generate(draws))| == 14
    ensures ToKorean(AccountNumber.Generate(draws))[4] == ' '
    ensures ToKorean(AccountNumber.Generate(draws))[9] == ' '
    ensures forall k :: 0 <= k < 12 ==>
              ToKorean(AccountNumber.Generate(draws))[AccountNumber.DigitPosition(k)] == DigitSyllables[draws[k]]
  {
    var s := AccountNumber.Generate(draws);
    AccountNumber.GenerateFormat(draws);
    TableEntries();
    assert AllMapped(s) by {
      forall i | 0 <= i < |s| ensures Syllable(s[i]).Some? {
        if i != 4 && i != 9 {
          DigitCharOfValue(s[i]);
        }
      }
    }
    ToKoreanAt(s, 4);
    ToKoreanAt(s, 9);
    forall k | 0 <= k < 12
      ensures ToKorean(s)[AccountNumber.DigitPosition(k)] == DigitSyllables[draws[k]]
    {
      ToKoreanAt(s, AccountNumber.DigitPosition(k));
    }
  }
}
