/** The matcap texture switcher: a keyboard-driven index into twelve matcap
    images, wrapping at both ends, and the image path rebuilt from it. */
module Matcap {
  import Decimal

  const FirstIndex: int := 1
  const LastIndex: int := 12
  const InitialIndex: int := 3
  const URLBase: string := "/textures/matcaps/"
  const Extension: string := ".png"

  const KeyA: int := 65
  const KeyLeft: int := 37
  const KeyD: int := 68
  const KeyRight: int := 39

  predicate InRange(i: int) {
    FirstIndex <= i <= LastIndex
  }

  predicate IsLeftKey(keyCode: int) {
    keyCode == KeyA || keyCode == KeyLeft
  }

  predicate IsRightKey(keyCode: int) {
    keyCode == KeyD || keyCode == KeyRight
  }

  predicate IsCycleKey(keyCode: int) {
    IsLeftKey(keyCode) || IsRightKey(keyCode)
  }

  /** The path of the image shown for index `i`. */
  function MatcapPath(i: nat): string {
    URLBase + Decimal.NatToString(i) + Extension
  }

  /** One step down, wrapping from the first index to the last. */
  function StepLeft(i: int): int {
    if i != FirstIndex then i - 1 else LastIndex
  }

  /** One step up, wrapping from the last index to the first. */
  function StepRight(i: int): int {
    if i != LastIndex then i + 1 else FirstIndex
  }

  /** The index after a key press; keys other than the four cycle keys are ignored. */
  function Next(i: int, keyCode: int): (j: int)
    ensures InRange(i) ==> InRange(j)
    ensures !IsCycleKey(keyCode) ==> j == i
  {
    if IsLeftKey(keyCode) then StepLeft(i)
    else if IsRightKey(keyCode) then StepRight(i)
    else i
  }

  /** The index after a sequence of key presses, first press first. */
  function Run(i: int, keys: seq<int>): int
    decreases |keys|
  {
    if keys == [] then i else Run(Next(i, keys[0]), keys[1..])
  }

  /** `n` presses of the same key. */
  function Repeat(keyCode: int, n: nat): (keys: seq<int>)
    ensures |keys| == n
  {
    if n == 0 then [] else [keyCode] + Repeat(keyCode, n - 1)
  }

  /** Each of the four cycle keys, applied once, in the three cases the handler distinguishes. */
  lemma KeyDownCases(i: int, keyCode: int)
    ensures IsLeftKey(keyCode) && i != FirstIndex ==> Next(i, keyCode) == i - 1
    ensures IsLeftKey(keyCode) && i == FirstIndex ==> Next(i, keyCode) == LastIndex
    ensures IsRightKey(keyCode) && i != LastIndex ==> Next(i, keyCode) == i + 1
    ensures IsRightKey(keyCode) && i == LastIndex ==> Next(i, keyCode) == FirstIndex
  {
  }

  /** A right press undoes a left press and a left press undoes a right press. */
  lemma LeftRightInverse(i: int, left: int, right: int)
    requires InRange(i) && IsLeftKey(left) && IsRightKey(right)
    ensures Next(Next(i, right), left) == i
    ensures Next(Next(i, left), right) == i
  {
  }

  /** Any sequence of presses keeps an in-range index in range. */
  lemma {:induction false} RunInRange(i: int, keys: seq<int>)
    requires InRange(i)
    ensures InRange(Run(i, keys))
    decreases |keys|
  {
    if keys != [] {
      RunInRange(Next(i, keys[0]), keys[1..]);
    }
  }

  /** From the start-up index, the index stays in range whatever is pressed. */
  lemma InitialRunInRange(keys: seq<int>)
    ensures InRange(Run(InitialIndex, keys))
  {
    RunInRange(InitialIndex, keys);
  }

  /** `n` right presses move the index `n` places up, modulo twelve. */
  lemma {:induction false} RightPresses(i: int, keyCode: int, n: nat)
    requires InRange(i) && IsRightKey(keyCode)
    ensures Run(i, Repeat(keyCode, n)) == (i - 1 + n) % 12 + 1
    decreases n
  {
    if n > 0 {
      var j := StepRight(i);
      assert j - 1 == i % 12;
      RightPresses(j, keyCode, n - 1);
      assert (i % 12 + (n - 1)) % 12 == (i + (n - 1)) % 12 by {
        ModAddLeft(i, n - 1);
      }
    }
  }

  /** `n` left presses move the index `n` places down, modulo twelve. */
  lemma {:induction false} LeftPresses(i: int, keyCode: int, n: nat)
    requires InRange(i) && IsLeftKey(keyCode)
    ensures Run(i, Repeat(keyCode, n)) == (i - 1 - n) % 12 + 1
    decreases n
  {
    if n > 0 {
      var j := StepLeft(i);
      assert j - 1 == (i - 2) % 12;
      LeftPresses(j, keyCode, n - 1);
      assert ((i - 2) % 12 - (n - 1)) % 12 == (i - 2 - (n - 1)) % 12 by {
        ModAddLeft(i - 2, -(n - 1));
      }
    }
  }

  /** Twelve presses of one cycle key come back to where they started. */
  lemma FullCycle(i: int, keyCode: int)
    requires InRange(i) && IsCycleKey(keyCode)
    ensures Run(i, Repeat(keyCode, 12)) == i
  {
    if IsLeftKey(keyCode) {
      LeftPresses(i, keyCode, 12);
    } else {
      RightPresses(i, keyCode, 12);
    }
  }

  /** From index 3, three left presses land on 12, across the lower boundary. */
  lemma ThreeLeftFromInitial()
    ensures Run(InitialIndex, [KeyA, KeyA, KeyA]) == LastIndex
  {
    LeftPresses(InitialIndex, KeyA, 3);
    assert Repeat(KeyA, 3) == [KeyA, KeyA, KeyA];
  }

  /** Different indices select different image paths. */
  lemma MatcapPathInjective(i: nat, j: nat)
    ensures MatcapPath(i) == MatcapPath(j) ==> i == j
  {
    if MatcapPath(i) == MatcapPath(j) {
      var a, b := Decimal.NatToString(i), Decimal.NatToString(j);
      assert |a| == |b|;
      assert MatcapPath(i)[|URLBase|..|URLBase| + |a|] == a;
      assert MatcapPath(j)[|URLBase|..|URLBase| + |b|] == b;
      Decimal.NatToStringInjective(i, j);
    }
  }

  /** Reducing the left operand modulo twelve first does not change a sum's residue. */
  lemma ModAddLeft(a: int, b: int)
    ensures (a % 12 + b) % 12 == (a + b) % 12
  {
  }

  /** The switcher's state: the current index and the image source built from it. */
  class Cycler {
    var index: int
    var src: string

    ghost predicate Valid()
      reads this
    {
      InRange(index) && src == MatcapPath(index)
    }

    constructor ()
      ensures Valid() && index == InitialIndex
    {
      index := InitialIndex;
      src := MatcapPath(InitialIndex);
    }

    /** The keydown handler. */
    method KeyDown(keyCode: int)
      requires Valid()
      modifies this
      ensures Valid()
      ensures IsLeftKey(keyCode) && old(index) != FirstIndex ==> index == old(index) - 1
      ensures IsLeftKey(keyCode) && old(index) == FirstIndex ==> index == LastIndex
      ensures IsRightKey(keyCode) && old(index) != LastIndex ==> index == old(index) + 1
      ensures IsRightKey(keyCode) && old(index) == LastIndex ==> index == FirstIndex
      ensures IsCycleKey(keyCode) ==> src == MatcapPath(index)
      ensures !IsCycleKey(keyCode) ==> index == old(index) && src == old(src)
      ensures index == Next(old(index), keyCode)
    {
      if keyCode == KeyA || keyCode == KeyLeft {
        if index != FirstIndex {
          index := index - 1;
          src := MatcapPath(index);
        } else {
          index := LastIndex;
          src := MatcapPath(index);
        }
      } else if keyCode == KeyD || keyCode == KeyRight {
        if index != LastIndex {
          index := index + 1;
          src := MatcapPath(index);
        } else {
          index := FirstIndex;
          src := MatcapPath(index);
        }
      }
    }
  }
}
