/** The on-screen keypad edits a password buffer of at most six characters.
    Both the payment-password modal and the first-login profile modal use the
    same three rules: append while shorter than six, drop the last character,
    clear. The profile modal also validates the result as six decimal digits. */
module PadBuffer {
  import opened Common

  const MaxLength: nat := 6

  /** `if (pw.length < 6) pw + value`. */
  function Append(buf: string, value: string): (r: string)
    ensures |buf| < MaxLength ==> r == buf + value
    ensures |buf| >= MaxLength ==> r == buf
  {
    if |buf| < MaxLength then buf + value else buf
  }

  /** `pw.slice(0, -1)`: everything but the last character; "" stays "". */
  function DeleteLast(buf: string): (r: string)
    ensures |buf| == 0 ==> r == ""
    ensures |buf| > 0 ==> |r| == |buf| - 1 && r + [buf[|buf| - 1]] == buf
  {
    if |buf| == 0 then "" else buf[..|buf| - 1]
  }

  /** `/^\d{6}$/.test(pw)`. */
  predicate IsSixDigits(s: string) {
    |s| == 6 && AllDigits(s)
  }

  /** A keypad press appends one character, so the buffer never grows past six. */
  lemma AppendBounded(buf: string, value: string)
    requires |buf| <= MaxLength && |value| == 1
    ensures |Append(buf, value)| <= MaxLength
  {
  }

  /** Deleting right after an accepted press restores the buffer. */
  lemma DeleteUndoesAppend(buf: string, value: string)
    requires |buf| < MaxLength && |value| == 1
    ensures DeleteLast(Append(buf, value)) == buf
  {
    assert (buf + value)[..|buf|] == buf;
  }

  /** The buffer after pressing the keys `keys` (one character each) from `start`. */
  function Presses(start: string, keys: string): string
    decreases |keys|
  {
    if |keys| == 0 then start else Presses(Append(start, [keys[0]]), keys[1..])
  }

  function Min(a: int, b: int): int { if a <= b then a else b }

  /** Pressing keys from any buffer of at most six keeps the buffer's first
      characters and fills it up with the first keys pressed, stopping at six. */
  lemma {:induction false} PressesFill(start: string, keys: string)
    requires |start| <= MaxLength
    ensures Presses(start, keys) == start + keys[..Min(|keys|, MaxLength - |start|)]
    decreases |keys|
  {
    if |keys| > 0 {
      var next := Append(start, [keys[0]]);
      PressesFill(next, keys[1..]);
      if |start| < MaxLength {
        assert next == start + [keys[0]];
        var m := Min(|keys[1..]|, MaxLength - |next|);
        assert [keys[0]] + keys[1..][..m] == keys[..m + 1];
      } else {
        assert next == start;
        assert keys[1..][..0] == keys[..0];
      }
    }
  }

  /** Six or more digit presses from an empty buffer give a valid password:
      the first six digits pressed. */
  lemma SixDigitPressesValidate(keys: string)
    requires |keys| >= MaxLength && AllDigits(keys)
    ensures Presses("", keys) == keys[..6]
    ensures IsSixDigits(Presses("", keys))
  {
    PressesFill("", keys);
  }
}
