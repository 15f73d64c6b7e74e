/** The shuffled on-screen keypad. Its ten digits live in one array that is
    reordered in place after every digit press. The source shuffles with
    `array.sort(() => Math.random() - 0.5)`: whatever the random comparator
    answers, the sort only exchanges elements, so the model takes the
    exchanges the sort performs as an input sequence of swaps. The twelve
    buttons are the digits in slots 0-4, delete, the digits in slots 5-9, clear. */
module NumberPad {
  import opened Common

  /** The list the pad starts from before its first shuffle. */
  const InitialOrder: seq<int> := [1, 2, 3, 4, 5, 6, 7, 8, 9, 0]

  const ButtonCount: nat := 12
  const DeleteIndex: nat := 5
  const ClearIndex: nat := 11

  /** Some ordering of the ten digits, each exactly once. */
  predicate IsDigitPermutation(s: seq<int>) {
    multiset(s) == multiset(InitialOrder)
  }

  /** The initial list is itself a permutation of the ten digits: every digit
      occurs exactly once and nothing else occurs. */
  lemma InitialOrderIsPermutation()
    ensures IsDigitPermutation(InitialOrder)
    ensures forall d :: 0 <= d <= 9 ==> multiset(InitialOrder)[d] == 1
    ensures forall x :: x in InitialOrder ==> 0 <= x <= 9
  {
    var m := multiset(InitialOrder);
    assert m == multiset{1, 2, 3, 4, 5, 6, 7, 8, 9, 0};
    forall d | 0 <= d <= 9 ensures m[d] == 1 {
      if d == 0 {} else if d == 1 {} else if d == 2 {} else if d == 3 {} else if d == 4 {}
      else if d == 5 {} else if d == 6 {} else if d == 7 {} else if d == 8 {} else {}
    }
  }

  /** Any digit permutation has ten entries, each a digit. */
  lemma PermutationHasDigits(s: seq<int>)
    requires IsDigitPermutation(s)
    ensures |s| == 10
    ensures forall i :: 0 <= i < |s| ==> 0 <= s[i] <= 9
  {
    assert |multiset(s)| == |multiset(InitialOrder)|;
    forall i | 0 <= i < |s| ensures 0 <= s[i] <= 9 {
      assert s[i] in multiset(s);
      assert s[i] in multiset(InitialOrder);
    }
  }

  /** One exchange of two positions. */
  datatype Swap = Swap(i: nat, j: nat)

  predicate SwapsFit(swaps: seq<Swap>, n: nat) {
    forall k :: 0 <= k < |swaps| ==> swaps[k].i < n && swaps[k].j < n
  }

  function SwapAt(s: seq<int>, w: Swap): (r: seq<int>)
    requires w.i < |s| && w.j < |s|
    ensures |r| == |s| && multiset(r) == multiset(s)
  {
    s[w.i := s[w.j]][w.j := s[w.i]]
  }

  /** The list after performing the given swaps in order. */
  function ApplySwaps(s: seq<int>, swaps: seq<Swap>): (r: seq<int>)
    requires SwapsFit(swaps, |s|)
    ensures |r| == |s|
    decreases |swaps|
  {
    if |swaps| == 0 then s
    else SwapAt(ApplySwaps(s, swaps[..|swaps| - 1]), swaps[|swaps| - 1])
  }

  /** However the comparator answers, the shuffled list is a permutation of
      the list it started from. */
  lemma {:induction false} ApplySwapsPermutes(s: seq<int>, swaps: seq<Swap>)
    requires SwapsFit(swaps, |s|)
    ensures multiset(ApplySwaps(s, swaps)) == multiset(s)
    decreases |swaps|
  {
    if |swaps| > 0 {
      ApplySwapsPermutes(s, swaps[..|swaps| - 1]);
    }
  }

  /** What a button does. */
  datatype Button = DeleteKey | ClearKey | DigitKey(slot: nat)

  /** `renderButton`: index 5 is delete, 11 is clear, the rest show slot
      `index < 5 ? index : index - 1` of the shuffled list. */
  function ButtonAt(index: nat): (b: Button)
    requires index < ButtonCount
    ensures b.DigitKey? ==> b.slot < 10
  {
    if index == DeleteIndex then DeleteKey
    else if index == ClearIndex then ClearKey
    else DigitKey(if index < 5 then index else index - 1)
  }

  /** The index of the button that shows a slot. */
  function IndexOfSlot(slot: nat): nat
    requires slot < 10
  {
    if slot < 5 then slot else slot + 1
  }

  /** Every one of the ten slots is shown by exactly one button, and the only
      other buttons are delete and clear. */
  lemma SlotsShownOnce()
    ensures forall slot :: 0 <= slot < 10 ==>
              IndexOfSlot(slot) < ButtonCount && ButtonAt(IndexOfSlot(slot)) == DigitKey(slot)
    ensures forall index, slot :: 0 <= index < ButtonCount && 0 <= slot < 10 && ButtonAt(index) == DigitKey(slot)
              ==> index == IndexOfSlot(slot)
    ensures forall index :: 0 <= index < ButtonCount ==>
              (ButtonAt(index).DeleteKey? <==> index == DeleteIndex) &&
              (ButtonAt(index).ClearKey? <==> index == ClearIndex)
  {
  }

  /** What a press hands to the modal that owns the pad. */
  datatype PadEvent = DeleteEvent | ClearEvent | DigitEvent(value: string)

  /** The event a press of button `index` produces over the list `numbers`:
      a digit button calls `onClick(number.toString())`. */
  function EventAt(numbers: seq<int>, index: nat): (e: PadEvent)
    requires IsDigitPermutation(numbers) && index < ButtonCount
    ensures e.DigitEvent? ==> |e.value| == 1 && AllDigits(e.value)
  {
    PermutationHasDigits(numbers);
    match ButtonAt(index)
    case DeleteKey => DeleteEvent
    case ClearKey => ClearEvent
    case DigitKey(slot) => DigitEvent([DigitChar(numbers[slot])])
  }

  /** The ten digit buttons between them offer every digit exactly once. */
  lemma {:induction false} EveryDigitOffered(numbers: seq<int>, d: int)
    requires IsDigitPermutation(numbers) && 0 <= d <= 9
    ensures exists index :: 0 <= index < ButtonCount && EventAt(numbers, index) == DigitEvent([DigitChar(d)])
  {
    PermutationHasDigits(numbers);
    InitialOrderIsPermutation();
    assert d in multiset(numbers);
    var slot :| 0 <= slot < |numbers| && numbers[slot] == d;
    SlotsShownOnce();
    assert EventAt(numbers, IndexOfSlot(slot)) == DigitEvent([DigitChar(d)]);
  }

  class NumberPad {
    var numbers: array<int>

    ghost predicate Valid()
      reads this, numbers
    {
      IsDigitPermutation(numbers[..])
    }

    /** Mounting runs `setNumbers(shuffleArray([1, ..., 9, 0]))`. */
    constructor (swaps: seq<Swap>)
      requires SwapsFit(swaps, |InitialOrder|)
      ensures Valid() && fresh(numbers)
      ensures numbers[..] == ApplySwaps(InitialOrder, swaps)
    {
      numbers := new int[10] [1, 2, 3, 4, 5, 6, 7, 8, 9, 0];
      new;
      assert numbers[..] == InitialOrder;
      Shuffle(swaps);
      ApplySwapsPermutes(InitialOrder, swaps);
    }

    /** `shuffleArray`: the sort reorders the array in place. */
    method Shuffle(swaps: seq<Swap>)
      requires SwapsFit(swaps, numbers.Length)
      modifies numbers
      ensures numbers[..] == ApplySwaps(old(numbers[..]), swaps)
    {
      var k := 0;
      while k < |swaps|
        invariant 0 <= k <= |swaps|
        invariant numbers[..] == ApplySwaps(old(numbers[..]), swaps[..k])
      {
        assert swaps[..k + 1][..k] == swaps[..k];
        var w := swaps[k];
        numbers[w.i], numbers[w.j] := numbers[w.j], numbers[w.i];
        k := k + 1;
      }
      assert swaps[..k] == swaps;
    }

    /** `renderButton(index)` pressed: delete and clear only call back; a
        digit calls back with its one-character string and then reshuffles. */
    method Press(index: nat, swaps: seq<Swap>) returns (e: PadEvent)
      requires Valid() && index < ButtonCount && SwapsFit(swaps, numbers.Length)
      modifies numbers
      ensures Valid()
      ensures e == EventAt(old(numbers[..]), index)
      ensures numbers[..] == if e.DigitEvent? then ApplySwaps(old(numbers[..]), swaps) else old(numbers[..])
    {
      PermutationHasDigits(numbers[..]);
      if index == DeleteIndex {
        e := DeleteEvent;
      } else if index == ClearIndex {
        e := ClearEvent;
      } else {
        var slot := if index < 5 then index else index - 1;
        e := DigitEvent([DigitChar(numbers[slot])]);
        ghost var before := numbers[..];
        Shuffle(swaps);
        ApplySwapsPermutes(before, swaps);
      }
    }
  }
}
