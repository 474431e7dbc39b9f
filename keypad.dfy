/** The vending-machine keypad of src/components/interfaces/VendingMachine/Keypad.tsx:
    a two-character input buffer that reports a slot code once it reads like one. */
module VendingKeypad {
  import opened Wrappers

  /** The keys on the pad. */
  const Keys: seq<string> := ["A", "B", "C", "1", "2", "CLR"]

  /** The codes that select a slot. */
  const ValidCodes: seq<string> := ["A1", "A2", "B1", "B2", "C1", "C2"]

  /** `s.slice(-2)`: the last two characters, or all of a shorter string. */
  function LastTwo(s: string): (r: string)
    ensures |r| == (if |s| < 2 then |s| else 2)
    ensures r == s[|s| - |r|..]
  {
    if |s| <= 2 then s else s[|s| - 2..]
  }

  /** A two-character buffer is a code exactly when it is a letter key followed by
      a digit key. */
  lemma CodeShape(r: string)
    requires |r| == 2
    ensures r in ValidCodes <==> r[0] in ['A', 'B', 'C'] && r[1] in ['1', '2']
  {
    if r[0] in ['A', 'B', 'C'] && r[1] in ['1', '2'] {
      var k := 2 * (if r[0] == 'A' then 0 else if r[0] == 'B' then 1 else 2) + (if r[1] == '1' then 0 else 1);
      assert ValidCodes[k] == r;
    }
  }

  /** Every key but `CLR` is one character, and it is a digit key exactly when that
      character is a digit. */
  lemma KeyIsOneChar(key: string)
    requires key in Keys && key != "CLR"
    ensures |key| == 1
    ensures key in ["1", "2"] <==> key[0] in ['1', '2']
  {
  }

  /** A valid code after a single-character key press: the key is a digit key and the
      character left in the buffer before it is a letter key. */
  lemma {:induction false} ValidCodeFromLetterThenDigit(input: string, key: string)
    requires key in Keys && key != "CLR"
    ensures LastTwo(input + key) in ValidCodes <==>
      key in ["1", "2"] && |input| >= 1 && input[|input| - 1] in ['A', 'B', 'C']
  {
    KeyIsOneChar(key);
    var r := LastTwo(input + key);
    if |input| == 0 {
      assert |r| == 1;
      assert forall c | c in ValidCodes :: |c| == 2;
    } else {
      assert r == [input[|input| - 1], key[0]];
      CodeShape(r);
    }
  }

  class Keypad {
    var input: string
    /** Clear timeouts scheduled and not yet fired (one per valid selection). */
    var pendingClears: nat

    ghost predicate Valid()
      reads this
    {
      |input| <= 2
    }

    constructor ()
      ensures Valid() && input == "" && pendingClears == 0
    {
      input := "";
      pendingClears := 0;
    }

    /** `handleKeyPress(key)`; `selected` is the code passed to `onSelect`, if any. */
    method HandleKeyPress(key: string) returns (selected: Option<string>)
      modifies this
      ensures Valid()
      ensures key == "CLR" ==> input == "" && selected == None && pendingClears == old(pendingClears)
      ensures key != "CLR" ==> input == LastTwo(old(input) + key)
      ensures key != "CLR" ==> (selected.Some? <==> input in ValidCodes)
      ensures selected.Some? ==> selected.value == input && input in ValidCodes
      ensures key != "CLR" ==>
        pendingClears == old(pendingClears) + (if selected.Some? then 1 else 0)
    {
      if key == "CLR" {
        input := "";
        selected := None;
        return;
      }
      var newInput := LastTwo(input + key);
      input := newInput;
      if newInput in ValidCodes {
        selected := Some(newInput);
        pendingClears := pendingClears + 1;
      } else {
        selected := None;
      }
    }

    /** The deferred clear after a selection fires. */
    method ClearTimeout()
      requires pendingClears > 0
      modifies this
      ensures Valid() && input == "" && pendingClears == old(pendingClears) - 1
    {
      input := "";
      pendingClears := pendingClears - 1;
    }
  }

  /** `A` on an empty buffer leaves `A`, which is no code. */
  lemma PressAOnEmpty()
    ensures LastTwo("" + "A") == "A" && "A" !in ValidCodes
  {
    assert "" + "A" == "A";
  }

  /** `1` after `A` leaves the code `A1`. */
  lemma PressOneAfterA()
    ensures LastTwo("A" + "1") == "A1" && "A1" in ValidCodes
  {
    assert ValidCodes[0] == "A1";
  }

  /** `1` on an empty buffer leaves `1`; `A` after it leaves `1A`; neither is a code. */
  lemma PressOneThenA()
    ensures LastTwo("" + "1") == "1" && "1" !in ValidCodes
    ensures LastTwo("1" + "A") == "1A" && "1A" !in ValidCodes
  {
    assert "" + "1" == "1";
  }

  /** A third character shifts a full buffer: `[a, b] + [c]` leaves `[b, c]`. */
  lemma {:induction false} Shift(a: char, b: char, c: char)
    ensures LastTwo([a, b] + [c]) == [b, c]
  {
    assert ([a, b] + [c])[1..] == [b, c];
  }

  /** `B` after `A` leaves `AB`, no code; `1` after that shifts the buffer to `B1`. */
  lemma PressBThenOne()
    ensures LastTwo("A" + "B") == "AB" && "AB" !in ValidCodes
    ensures LastTwo("AB" + "1") == "B1" && "B1" in ValidCodes
  {
    Shift('A', 'B', '1');
    assert ValidCodes[2] == "B1";
  }

  /** `A` then `1` selects `A1`; `1` then `A` selects nothing. */
  method LetterThenDigit() returns (first: Option<string>, second: Option<string>,
                                    reversedFirst: Option<string>, reversedSecond: Option<string>)
    ensures first == None && second == Some("A1")
    ensures reversedFirst == None && reversedSecond == None
  {
    PressAOnEmpty();
    PressOneAfterA();
    PressOneThenA();
    var pad := new Keypad();
    first := pad.HandleKeyPress("A");
    second := pad.HandleKeyPress("1");
    var other := new Keypad();
    reversedFirst := other.HandleKeyPress("1");
    reversedSecond := other.HandleKeyPress("A");
  }

  /** A selection schedules one clear; when it fires the buffer is empty again. */
  method SelectThenClear() returns (selected: Option<string>, before: string, after: string)
    ensures selected == Some("B2") && before == "B2" && after == ""
  {
    var pad := new Keypad();
    assert LastTwo("" + "B") == "B" && "B" !in ValidCodes;
    var _ := pad.HandleKeyPress("B");
    assert pad.input == "B" && pad.pendingClears == 0;
    assert LastTwo("B" + "2") == "B2" && "B2" in ValidCodes;
    selected := pad.HandleKeyPress("2");
    before := pad.input;
    pad.ClearTimeout();
    after := pad.input;
  }

  /** A third key shifts the buffer: `A`, `B`, `1` selects `B1`, not `A1`. */
  method ShiftingBuffer() returns (selected: Option<string>)
    ensures selected == Some("B1")
  {
    PressAOnEmpty();
    PressBThenOne();
    var pad := new Keypad();
    var _ := pad.HandleKeyPress("A");
    var _ := pad.HandleKeyPress("B");
    selected := pad.HandleKeyPress("1");
  }
}
