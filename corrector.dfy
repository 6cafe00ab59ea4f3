/**
 * Confusion-aware format correction of one candidate string (`correct_plate`
 * in utils.py). A candidate of length 8 loses its first character; letter
 * slots 0-2 turn confusable digits into letters, digit slots 3, 5 and 6 turn
 * confusable letters into digits, and, when the plate is known to be of the
 * current era, slot 4 is treated as a letter slot as well. The result is kept
 * only if it is a legacy plate LLLNNNN or a current plate LLLNLNN.
 */
module Corrector {
  import opened Wrappers
  import opened Text
  import opened Confusion

  /** Shortest candidate that is looked at. */
  const MinLength: nat := 7
  /** Length of a candidate whose first character is dropped as noise. */
  const NoisyLength: nat := 8
  /** Length of every plate. */
  const PlateLength: nat := 7

  const LetterSlots: seq<nat> := [0, 1, 2]
  const DigitSlots: seq<nat> := [3, 5, 6]
  /** The slot that is a digit in a legacy plate and a letter in a current one. */
  const EraSlot: nat := 4

  /** `^[A-Z]{3}\d{4}$`: 'L' stands for `[A-Z]`, 'N' for `\d`. */
  const LegacyShape: string := "LLLNNNN"
  /** `^[A-Z]{3}\d[A-Z]\d{2}$`. */
  const CurrentShape: string := "LLLNLNN"

  /** `s` matches, anchored at both ends, the pattern `shape`. */
  predicate Matches(s: string, shape: string) {
    |s| == |shape| &&
    forall i :: 0 <= i < |s| ==> if shape[i] == 'L' then IsUpper(s[i]) else IsDigit(s[i])
  }

  predicate IsLegacy(s: string) { Matches(s, LegacyShape) }

  predicate IsCurrent(s: string) { Matches(s, CurrentShape) }

  /** A canonical plate: a string of one of the two formats. */
  predicate IsPlate(s: string) { IsLegacy(s) || IsCurrent(s) }

  /** No string is of both formats: they differ at the era slot. */
  lemma FormatsAreExclusive(s: string)
    ensures !(IsLegacy(s) && IsCurrent(s))
  {
    if IsLegacy(s) {
      assert LegacyShape[EraSlot] != 'L' && CurrentShape[EraSlot] == 'L';
      assert !IsUpper(s[EraSlot]);
    }
  }

  /** The correction `correct_plate` applies to the character at slot `i`. */
  function SlotFix(c: char, i: nat, isNewPlate: bool): char {
    if i in LetterSlots || (isNewPlate && i == EraSlot) then ToLetter(c)
    else if i in DigitSlots then ToDigit(c)
    else c
  }

  /** The candidate after all positional corrections, character by character. */
  function Corrected(w: string, isNewPlate: bool): (r: string)
    ensures |r| == |w|
    ensures forall i :: 0 <= i < |w| ==> r[i] == SlotFix(w[i], i, isNewPlate)
  {
    seq(|w|, i requires 0 <= i < |w| => SlotFix(w[i], i, isNewPlate))
  }

  /** The candidate after the 8-character rule. */
  function Trimmed(word: string): (t: string)
    ensures |word| == NoisyLength ==> t == word[1..]
    ensures |word| != NoisyLength ==> t == word
  {
    if |word| == NoisyLength then word[1..] else word
  }

  /** Specification of `correct_plate(word, is_new_plate)`. */
  function Correct(word: string, isNewPlate: bool): (r: Option<string>)
    ensures r.Some? ==> |r.value| == PlateLength && IsPlate(r.value)
  {
    if |word| < MinLength then None
    else
      var f := Corrected(Trimmed(word), isNewPlate);
      if IsPlate(f) then Some(f) else None
  }

  /** The candidate `t` after the first k steps of the letter loop. */
  predicate LettersDone(t: string, w: string, k: nat)
    requires k <= |LetterSlots|
  {
    |w| == |t| &&
    forall i :: 0 <= i < |w| ==> w[i] == if i in LetterSlots[..k] then ToLetter(t[i]) else t[i]
  }

  /** The candidate `t` after the letter loop and the first k steps of the
      digit loop. */
  predicate DigitsDone(t: string, w: string, k: nat)
    requires k <= |DigitSlots|
  {
    |w| == |t| &&
    forall i :: 0 <= i < |w| ==>
      w[i] == if i in LetterSlots then ToLetter(t[i])
              else if i in DigitSlots[..k] then ToDigit(t[i])
              else t[i]
  }

  lemma LetterStep(t: string, w: string, k: nat)
    requires k < |LetterSlots| && |t| >= PlateLength && LettersDone(t, w, k)
    ensures LettersDone(t, w[LetterSlots[k] := ToLetter(w[LetterSlots[k]])], k + 1)
  {
    assert LetterSlots[..k + 1] == LetterSlots[..k] + [LetterSlots[k]];
  }

  lemma DigitStep(t: string, w: string, k: nat)
    requires k < |DigitSlots| && |t| >= PlateLength && DigitsDone(t, w, k)
    ensures DigitsDone(t, w[DigitSlots[k] := ToDigit(w[DigitSlots[k]])], k + 1)
  {
    assert DigitSlots[..k + 1] == DigitSlots[..k] + [DigitSlots[k]];
  }

  lemma LettersThenDigits(t: string, w: string)
    requires LettersDone(t, w, |LetterSlots|)
    ensures DigitsDone(t, w, 0)
  {
    assert LetterSlots[..|LetterSlots|] == LetterSlots;
  }

  /** After both loops, the era step completes the positional corrections,
      and the format test decides the result. */
  lemma EraStep(word: string, w: string, isNewPlate: bool)
    requires |word| >= MinLength && DigitsDone(Trimmed(word), w, |DigitSlots|)
    ensures var f := if isNewPlate then w[EraSlot := ToLetter(w[EraSlot])] else w;
      Correct(word, isNewPlate) == if IsPlate(f) then Some(f) else None
  {
    assert DigitSlots[..|DigitSlots|] == DigitSlots;
    var f := if isNewPlate then w[EraSlot := ToLetter(w[EraSlot])] else w;
    assert f == Corrected(Trimmed(word), isNewPlate);
  }

  /** `correct_plate`, with its two loops over the slot lists. */
  method CorrectPlate(word: string, isNewPlate: bool) returns (r: Option<string>)
    ensures r == Correct(word, isNewPlate)
  {
    if |word| < MinLength {
      return None;
    }
    var w := word;
    if |w| == NoisyLength {
      w := w[1..];
    }
    ghost var t := w;
    assert t == Trimmed(word);

    for k := 0 to |LetterSlots|
      invariant LettersDone(t, w, k)
    {
      var pos := LetterSlots[k];
      ChangeCharAt(w, pos);
      LetterStep(t, w, k);
      if IsDigit(w[pos]) {
        w := ChangeChar(w, pos);
      }
    }
    LettersThenDigits(t, w);

    for k := 0 to |DigitSlots|
      invariant DigitsDone(t, w, k)
    {
      var pos := DigitSlots[k];
      ChangeNumberAt(w, pos);
      DigitStep(t, w, k);
      if IsAlpha(w[pos]) {
        w := ChangeNumber(w, pos);
      }
    }

    EraStep(word, w, isNewPlate);
    ChangeCharAt(w, EraSlot);
    if isNewPlate && |w| > EraSlot && IsDigit(w[EraSlot]) {
      w := ChangeChar(w, EraSlot);
    }

    if Matches(w, LegacyShape) || Matches(w, CurrentShape) {
      r := Some(w);
    } else {
      r := None;
    }
  }

  /** Candidates shorter than 7 and, since they are never trimmed, candidates
      of length 9 or more are rejected. */
  lemma CorrectRejectsLength(word: string, isNewPlate: bool)
    requires |word| < MinLength || |word| > NoisyLength
    ensures Correct(word, isNewPlate) == None
  {
  }

  /** An 8-character candidate is corrected as if its first character were absent. */
  lemma CorrectDropsNoise(word: string, isNewPlate: bool)
    requires |word| == NoisyLength
    ensures Correct(word, isNewPlate) == Correct(word[1..], isNewPlate)
  {
  }

  /** A corrected plate differs from the (trimmed) candidate only by table
      substitutions, and in the direction its slot asks for: digit to letter in
      letter slots, letter to digit in digit slots; without the era hint slot 4
      is never touched. */
  lemma CorrectOnlySubstitutes(word: string, isNewPlate: bool)
    requires Correct(word, isNewPlate).Some?
    ensures var p, t := Correct(word, isNewPlate).value, Trimmed(word);
      |t| == |p| &&
      (forall i :: 0 <= i < |p| && (i in LetterSlots || (isNewPlate && i == EraSlot)) ==>
        p[i] == t[i] || Confusable(t[i], p[i])) &&
      (forall i :: 0 <= i < |p| && i in DigitSlots ==>
        p[i] == t[i] || Confusable(p[i], t[i])) &&
      (!isNewPlate ==> p[EraSlot] == t[EraSlot])
  {
  }

  /** The era hint matters at slot 4 only, and never decides whether a
      candidate is accepted: with the hint, a legacy plate whose slot-4 digit
      is in the table comes out as a current plate. */
  lemma HintOnlyAffectsEraSlot(word: string)
    ensures Correct(word, false).Some? <==> Correct(word, true).Some?
    ensures Correct(word, false).Some? ==>
      var p, q := Correct(word, false).value, Correct(word, true).value;
      (forall i :: 0 <= i < PlateLength && i != EraSlot ==> p[i] == q[i]) &&
      q[EraSlot] == ToLetter(p[EraSlot])
  {
    if |word| >= MinLength {
      var t := Trimmed(word);
      var f0, f1 := Corrected(t, false), Corrected(t, true);
      if |t| == PlateLength {
        assert forall i :: 0 <= i < PlateLength && i != EraSlot ==> f0[i] == f1[i];
        assert f0[EraSlot] == t[EraSlot];
        assert f1[EraSlot] == ToLetter(t[EraSlot]);
        if IsPlate(f1) {
          if exists l :: IsDigit(t[EraSlot]) && Confusable(t[EraSlot], l) {
            assert IsLegacy(f0);
          } else {
            assert f0 == f1;
          }
        }
        if IsPlate(f0) {
          if IsLegacy(f0) {
            if exists l :: Confusable(t[EraSlot], l) {
              var l :| Confusable(t[EraSlot], l);
              ConfusableIsBijection(t[EraSlot], l);
              assert IsCurrent(f1);
            } else {
              assert f0 == f1;
            }
          } else {
            assert f0 == f1;
          }
        }
      }
    }
  }

  /** A corrected plate is a fixed point of the correction for the same hint. */
  lemma CorrectIdempotent(word: string, isNewPlate: bool)
    requires Correct(word, isNewPlate).Some?
    ensures Correct(Correct(word, isNewPlate).value, isNewPlate) == Correct(word, isNewPlate)
  {
    var p := Correct(word, isNewPlate).value;
    var t := Trimmed(word);
    var q := Corrected(p, isNewPlate);
    forall i | 0 <= i < PlateLength ensures q[i] == p[i] {
      if i in LetterSlots || (isNewPlate && i == EraSlot) {
        if exists l :: IsDigit(t[i]) && Confusable(t[i], l) {
          var l :| Confusable(t[i], l);
          ConfusableIsBijection(t[i], l);
        }
      } else if i in DigitSlots {
        if exists d :: IsAlpha(t[i]) && Confusable(d, t[i]) {
          var d :| Confusable(d, t[i]);
          ConfusableIsBijection(d, t[i]);
        }
      }
    }
    assert q == p;
  }

  /** A current-format plate is returned unchanged whatever the hint. */
  lemma CurrentPlateIsFixed(p: string, isNewPlate: bool)
    requires IsCurrent(p)
    ensures Correct(p, isNewPlate) == Some(p)
  {
    var q := Corrected(p, isNewPlate);
    forall i | 0 <= i < PlateLength ensures q[i] == p[i] {
      assert CurrentShape[i] == 'L' ==> IsUpper(p[i]);
      assert CurrentShape[i] != 'L' ==> IsDigit(p[i]);
    }
    assert q == p;
  }

  /** A legacy-format plate is returned unchanged without the hint, and with
      the hint has its slot-4 digit replaced through the table. */
  lemma LegacyPlateUnderHint(p: string)
    requires IsLegacy(p)
    ensures Correct(p, false) == Some(p)
    ensures Correct(p, true) == Some(p[EraSlot := ToLetter(p[EraSlot])])
    ensures (exists l :: Confusable(p[EraSlot], l)) ==> IsCurrent(Correct(p, true).value)
    ensures (forall l :: !Confusable(p[EraSlot], l)) ==> Correct(p, true) == Some(p)
  {
    var q0, q1 := Corrected(p, false), Corrected(p, true);
    forall i | 0 <= i < PlateLength ensures q0[i] == p[i] && (i != EraSlot ==> q1[i] == p[i]) {
      assert LegacyShape[i] == 'L' ==> IsUpper(p[i]);
      assert LegacyShape[i] != 'L' ==> IsDigit(p[i]);
    }
    assert q0 == p;
    assert q1 == p[EraSlot := ToLetter(p[EraSlot])];
    if exists l :: Confusable(p[EraSlot], l) {
      var l :| Confusable(p[EraSlot], l);
      ConfusableIsBijection(p[EraSlot], l);
      assert IsCurrent(q1);
    } else {
      assert q1 == p;
    }
  }

  /** A seven-character candidate is corrected as it stands. */
  lemma CorrectSeven(word: string, isNewPlate: bool)
    requires |word| == PlateLength
    ensures Correct(word, isNewPlate) ==
      if IsPlate(Corrected(word, isNewPlate)) then Some(Corrected(word, isNewPlate)) else None
  {
  }

  /** Worked case: a digit in a letter slot. */
  lemma ExampleLetterSlot()
    ensures Correct("8AA1234", false) == Some("BAA1234")
  {
    CorrectSeven("8AA1234", false);
    ExampleLetterSlotCorrected();
    ExampleLetterSlotIsPlate();
  }

  lemma ExampleLetterSlotCorrected()
    ensures Corrected("8AA1234", false) == "BAA1234"
  {
    ExampleSlotFixes();
    var f := Corrected("8AA1234", false);
    assert f[0] == SlotFix('8', 0, false) && f[1] == SlotFix('A', 1, false);
    assert f[2] == SlotFix('A', 2, false) && f[3] == SlotFix('1', 3, false);
    assert f[4] == SlotFix('2', 4, false) && f[5] == SlotFix('3', 5, false);
    assert f[6] == SlotFix('4', 6, false);
  }

  lemma ExampleLetterSlotIsPlate()
    ensures IsPlate("BAA1234")
  {
    assert IsLegacy("BAA1234");
  }

  lemma ExampleSlotFixes()
    ensures SlotFix('8', 0, false) == 'B' && SlotFix('A', 1, false) == 'A' && SlotFix('A', 2, false) == 'A'
    ensures SlotFix('1', 3, false) == '1' && SlotFix('2', 4, false) == '2'
    ensures SlotFix('3', 5, false) == '3' && SlotFix('4', 6, false) == '4'
  {
    assert 0 in LetterSlots && 1 in LetterSlots && 2 in LetterSlots;
    assert 3 in DigitSlots && 5 in DigitSlots && 6 in DigitSlots && 4 !in DigitSlots;
  }

  /** Worked case: the first of eight characters is dropped. */
  lemma ExampleNoise()
    ensures Correct("XABC1234", false) == Some("ABC1234")
  {
    assert Trimmed("XABC1234") == "ABC1234";
    CurrentOrLegacyExample();
  }

  lemma CurrentOrLegacyExample()
    ensures Correct("ABC1234", false) == Some("ABC1234")
  {
    LegacyPlateUnderHint("ABC1234");
  }

  /** Worked case: with the hint, the legacy plate ABC1034 becomes ABC1O34. */
  lemma ExampleEraHint()
    ensures Correct("ABC1034", true) == Some("ABC1O34")
    ensures Correct("ABC1034", false) == Some("ABC1034")
  {
    LegacyPlateUnderHint("ABC1034");
    assert "ABC1034"[EraSlot := 'O'] == "ABC1O34";
  }
}
