/**
 * The digit/letter confusion table of utils.py and the two helpers that apply
 * it at one index of a word (`change_char_in_position`,
 * `change_number_in_position`).
 */
module Confusion {
  import opened Text

  /** The six pairs an OCR engine confuses: digit `d` read where letter `l` stood. */
  predicate Confusable(d: char, l: char) {
    (d, l) in {('8', 'B'), ('1', 'I'), ('0', 'O'), ('5', 'S'), ('6', 'G'), ('3', 'J')}
  }

  /** The letter a table digit stands for; any other character is its own image. */
  function LetterFor(d: char): (l: char)
    ensures Confusable(d, l) || (l == d && forall x :: !Confusable(d, x))
  {
    if d == '8' then 'B'
    else if d == '1' then 'I'
    else if d == '0' then 'O'
    else if d == '5' then 'S'
    else if d == '6' then 'G'
    else if d == '3' then 'J'
    else d
  }

  /** The digit a table letter stands for; any other character is its own image. */
  function DigitFor(l: char): (d: char)
    ensures Confusable(d, l) || (d == l && forall x :: !Confusable(x, l))
  {
    if l == 'B' then '8'
    else if l == 'I' then '1'
    else if l == 'O' then '0'
    else if l == 'S' then '5'
    else if l == 'G' then '6'
    else if l == 'J' then '3'
    else l
  }

  /** The table is a bijection between six digits and six upper-case letters. */
  lemma ConfusableIsBijection(d: char, l: char)
    requires Confusable(d, l)
    ensures IsDigit(d) && IsUpper(l)
    ensures LetterFor(d) == l && DigitFor(l) == d
    ensures forall x :: Confusable(d, x) ==> x == l
    ensures forall x :: Confusable(x, l) ==> x == d
  {
  }

  /** What `change_char_in_position` does to the character at its index. */
  function ToLetter(c: char): (r: char)
    ensures IsDigit(c) && (exists l :: Confusable(c, l)) ==> Confusable(c, r)
    ensures !IsDigit(c) || (forall l :: !Confusable(c, l)) ==> r == c
  {
    if IsDigit(c) then LetterFor(c) else c
  }

  /** What `change_number_in_position` does to the character at its index. */
  function ToDigit(c: char): (r: char)
    ensures IsAlpha(c) && (exists d :: Confusable(d, c)) ==> Confusable(r, c)
    ensures !IsAlpha(c) || (forall d :: !Confusable(d, c)) ==> r == c
  {
    if IsAlpha(c) then DigitFor(c) else c
  }

  /** `change_char_in_position(word, position)`: a table digit at `position`
      becomes its letter; the word is otherwise returned as it is. */
  function ChangeChar(word: string, position: nat): (r: string)
    ensures |r| == |word|
    ensures forall i :: 0 <= i < |word| && i != position ==> r[i] == word[i]
    ensures position < |word| && (exists l :: Confusable(word[position], l)) ==>
              Confusable(word[position], r[position])
    ensures position >= |word| || (forall l :: !Confusable(word[position], l)) ==> r == word
  {
    if position < |word| && IsDigit(word[position]) then
      word[..position] + [LetterFor(word[position])] + word[position + 1..]
    else
      word
  }

  /** `change_number_in_position(word, position)`: a table letter at `position`
      becomes its digit; the word is otherwise returned as it is. */
  function ChangeNumber(word: string, position: nat): (r: string)
    ensures |r| == |word|
    ensures forall i :: 0 <= i < |word| && i != position ==> r[i] == word[i]
    ensures position < |word| && (exists d :: Confusable(d, word[position])) ==>
              Confusable(r[position], word[position])
    ensures position >= |word| || (forall d :: !Confusable(d, word[position])) ==> r == word
  {
    if position < |word| && IsAlpha(word[position]) then
      word[..position] + [DigitFor(word[position])] + word[position + 1..]
    else
      word
  }

  /** The guarded call `if w[pos].isdigit(): change_char_in_position(w, pos)`
      replaces the character at `pos` by its letter image. */
  lemma ChangeCharAt(word: string, position: nat)
    requires position < |word|
    ensures (if IsDigit(word[position]) then ChangeChar(word, position) else word) ==
      word[position := ToLetter(word[position])]
  {
  }

  /** The guarded call `if w[pos].isalpha(): change_number_in_position(w, pos)`
      replaces the character at `pos` by its digit image. */
  lemma ChangeNumberAt(word: string, position: nat)
    requires position < |word|
    ensures (if IsAlpha(word[position]) then ChangeNumber(word, position) else word) ==
      word[position := ToDigit(word[position])]
  {
  }

  /** The two helpers undo each other on the table pairs. */
  lemma ChangeNumberUndoesChangeChar(word: string, position: nat)
    requires position < |word|
    requires exists l :: Confusable(word[position], l)
    ensures ChangeChar(word, position) != word
    ensures ChangeNumber(ChangeChar(word, position), position) == word
  {
    var l :| Confusable(word[position], l);
    ConfusableIsBijection(word[position], l);
    var r := ChangeChar(word, position);
    assert r[position] == l;
    ConfusableIsBijection(word[position], r[position]);
    assert ChangeNumber(r, position) == word by {
      var back := ChangeNumber(r, position);
      assert back[position] == word[position];
      assert forall i :: 0 <= i < |word| ==> back[i] == word[i];
    }
  }

  lemma ChangeCharUndoesChangeNumber(word: string, position: nat)
    requires position < |word|
    requires exists d :: Confusable(d, word[position])
    ensures ChangeNumber(word, position) != word
    ensures ChangeChar(ChangeNumber(word, position), position) == word
  {
    var d :| Confusable(d, word[position]);
    ConfusableIsBijection(d, word[position]);
    var r := ChangeNumber(word, position);
    assert r[position] == d;
    assert ChangeChar(r, position) == word by {
      var back := ChangeChar(r, position);
      assert back[position] == word[position];
      assert forall i :: 0 <= i < |word| ==> back[i] == word[i];
    }
  }

  /** Applying a helper twice at the same index is the same as applying it once. */
  lemma ChangeCharIdempotent(word: string, position: nat)
    ensures ChangeChar(ChangeChar(word, position), position) == ChangeChar(word, position)
  {
    var r := ChangeChar(word, position);
    if position < |word| && exists l :: Confusable(word[position], l) {
      var l :| Confusable(word[position], l);
      ConfusableIsBijection(word[position], l);
      assert forall x :: !Confusable(r[position], x);
    }
  }

  lemma ChangeNumberIdempotent(word: string, position: nat)
    ensures ChangeNumber(ChangeNumber(word, position), position) == ChangeNumber(word, position)
  {
    var r := ChangeNumber(word, position);
    if position < |word| && exists d :: Confusable(d, word[position]) {
      var d :| Confusable(d, word[position]);
      ConfusableIsBijection(d, word[position]);
      assert forall x :: !Confusable(x, r[position]);
    }
  }
}
