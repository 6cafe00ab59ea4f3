/**
 * Choosing the plate among the OCR tokens of one cropped region (the part of
 * `extract_plate_from_image` in utils.py after the OCR call). Every token is
 * cleaned; a token reading "brasil" is dropped and switches the era hint on;
 * the remaining tokens are tried one by one, then every ordered pair i < j
 * concatenated, and the first candidate that corrects to a plate wins.
 */
module Fragments {
  import opened Wrappers
  import opened Text
  import opened Corrector

  /** The word on the plate's blue strip, in lower case as the source compares it. */
  const Marker: string := "brasil"

  /** A token as the selection sees it: spaces removed, then cleaned. */
  function Token(raw: string): (t: string)
    ensures IsClean(t)
  {
    Clean(RemoveSpaces(raw))
  }

  predicate IsMarker(t: string) { Lower(t) == Marker }

  /** The hint as the first loop leaves it: on once some token was the marker. */
  predicate HasMarker(raws: seq<string>) {
    raws != [] && (HasMarker(raws[..|raws| - 1]) || IsMarker(Token(raws[|raws| - 1])))
  }

  /** The hint is on exactly when some token, anywhere, is the marker. */
  lemma {:induction false} HasMarkerMeaning(raws: seq<string>)
    ensures HasMarker(raws) <==> exists i :: 0 <= i < |raws| && IsMarker(Token(raws[i]))
  {
    if raws != [] {
      var init := raws[..|raws| - 1];
      HasMarkerMeaning(init);
      assert forall i :: 0 <= i < |init| ==> init[i] == raws[i];
    }
  }

  /** `detected_words`: the cleaned tokens other than the marker, in order
      (empty tokens included). */
  function Words(raws: seq<string>): (ws: seq<string>)
    ensures |ws| <= |raws|
    ensures forall w :: w in ws ==> IsClean(w) && !IsMarker(w)
  {
    if raws == [] then []
    else
      var t := Token(raws[|raws| - 1]);
      Words(raws[..|raws| - 1]) + (if IsMarker(t) then [] else [t])
  }

  /** `detected_words[i][0] + detected_words[j][0]` for every i < j, in the
      order of the two nested loops. */
  function Pairs(ws: seq<string>): (ps: seq<string>)
    decreases |ws|
  {
    if ws == [] then []
    else Row(ws, 0, 1) + Pairs(ws[1..])
  }

  /** The pairs `ws[i] + ws[j]` for j = from, from + 1, ..., |ws| - 1. */
  function Row(ws: seq<string>, i: nat, from: nat): (r: seq<string>)
    requires i < |ws| && from <= |ws|
    ensures |r| == |ws| - from
    ensures forall k :: 0 <= k < |r| ==> r[k] == ws[i] + ws[from + k]
  {
    seq(|ws| - from, k requires 0 <= k < |ws| - from => ws[i] + ws[from + k])
  }

  /** Every candidate, in the order they are tried. */
  function Candidates(ws: seq<string>): seq<string> {
    ws + Pairs(ws)
  }

  /** The first candidate that corrects to a plate. */
  function FirstSuccess(cs: seq<string>, isNewPlate: bool): Option<string> {
    if cs == [] then None
    else
      var c := Correct(cs[0], isNewPlate);
      if c.Some? then c else FirstSuccess(cs[1..], isNewPlate)
  }

  /** The first success is a plate obtained from some candidate, all earlier
      candidates failing; there is none exactly when every candidate fails. */
  lemma FirstSuccessMeaning(cs: seq<string>, isNewPlate: bool)
    ensures FirstSuccess(cs, isNewPlate).None? <==>
      forall k :: 0 <= k < |cs| ==> Correct(cs[k], isNewPlate).None?
    ensures FirstSuccess(cs, isNewPlate).Some? ==>
      exists k :: 0 <= k < |cs| && Correct(cs[k], isNewPlate) == FirstSuccess(cs, isNewPlate) &&
        (forall m :: 0 <= m < k ==> Correct(cs[m], isNewPlate).None?)
  {
    FirstSuccessNone(cs, isNewPlate);
    FirstSuccessSome(cs, isNewPlate);
  }

  lemma {:induction false} FirstSuccessNone(cs: seq<string>, isNewPlate: bool)
    ensures FirstSuccess(cs, isNewPlate).None? <==>
      forall k :: 0 <= k < |cs| ==> Correct(cs[k], isNewPlate).None?
  {
    if cs != [] && Correct(cs[0], isNewPlate).None? {
      FirstSuccessNone(cs[1..], isNewPlate);
      assert forall k :: 1 <= k < |cs| ==> cs[k] == cs[1..][k - 1];
    }
  }

  lemma FirstSuccessSome(cs: seq<string>, isNewPlate: bool)
    ensures FirstSuccess(cs, isNewPlate).Some? ==>
      exists k :: 0 <= k < |cs| && Correct(cs[k], isNewPlate) == FirstSuccess(cs, isNewPlate) &&
        (forall m :: 0 <= m < k ==> Correct(cs[m], isNewPlate).None?)
  {
    if FirstSuccess(cs, isNewPlate).Some? {
      FirstIndexMeaning(cs, isNewPlate);
      var k := FirstIndex(cs, isNewPlate);
      assert Correct(cs[k], isNewPlate) == FirstSuccess(cs, isNewPlate);
    }
  }

  /** Position of the first candidate that corrects, `|cs|` when none does. */
  function FirstIndex(cs: seq<string>, isNewPlate: bool): nat {
    if cs == [] then 0
    else if Correct(cs[0], isNewPlate).Some? then 0
    else 1 + FirstIndex(cs[1..], isNewPlate)
  }

  lemma {:induction false} FirstIndexMeaning(cs: seq<string>, isNewPlate: bool)
    requires FirstSuccess(cs, isNewPlate).Some?
    ensures FirstIndex(cs, isNewPlate) < |cs|
    ensures Correct(cs[FirstIndex(cs, isNewPlate)], isNewPlate) == FirstSuccess(cs, isNewPlate)
    ensures forall m :: 0 <= m < FirstIndex(cs, isNewPlate) ==> Correct(cs[m], isNewPlate).None?
  {
    if Correct(cs[0], isNewPlate).None? {
      var tail := cs[1..];
      FirstIndexMeaning(tail, isNewPlate);
      forall m | 0 <= m < FirstIndex(cs, isNewPlate) ensures Correct(cs[m], isNewPlate).None? {
        if m > 0 {
          assert cs[m] == tail[m - 1];
        }
      }
      assert cs[FirstIndex(cs, isNewPlate)] == tail[FirstIndex(tail, isNewPlate)];
    }
  }

  /** Specification of the selection: a tried candidate never comes from the
      marker, and the hint is on for every attempt once the marker occurs
      anywhere among the tokens. */
  function Select(raws: seq<string>, isNewPlate: bool): Option<string> {
    FirstSuccess(Candidates(Words(raws)), isNewPlate || HasMarker(raws))
  }

  /** A selected plate is a well-formed seven-character plate. */
  lemma SelectIsPlate(raws: seq<string>, isNewPlate: bool)
    ensures Select(raws, isNewPlate).Some? ==>
      |Select(raws, isNewPlate).value| == PlateLength && IsPlate(Select(raws, isNewPlate).value)
  {
    var cs, h := Candidates(Words(raws)), isNewPlate || HasMarker(raws);
    FirstSuccessMeaning(cs, h);
  }

  lemma {:induction false} FirstSuccessAppend(a: seq<string>, b: seq<string>, h: bool)
    ensures FirstSuccess(a + b, h) == if FirstSuccess(a, h).Some? then FirstSuccess(a, h) else FirstSuccess(b, h)
  {
    if a == [] {
      assert a + b == b;
    } else {
      assert (a + b)[1..] == a[1..] + b;
      FirstSuccessAppend(a[1..], b, h);
    }
  }

  lemma PairsSuffix(ws: seq<string>, i: nat)
    requires i < |ws|
    ensures Pairs(ws[i..]) == Row(ws, i, i + 1) + Pairs(ws[i + 1..])
  {
    var s := ws[i..];
    assert s[1..] == ws[i + 1..];
    assert Row(s, 0, 1) == Row(ws, i, i + 1);
  }

  lemma RowStep(ws: seq<string>, i: nat, j: nat)
    requires i < |ws| && j < |ws|
    ensures Row(ws, i, j) == [ws[i] + ws[j]] + Row(ws, i, j + 1)
  {
  }

  /** Trying the pair (i, j) first, then the rest of the nested loops. */
  lemma PairStep(ws: seq<string>, i: nat, j: nat, h: bool)
    requires i < j < |ws|
    ensures FirstSuccess(Row(ws, i, j) + Pairs(ws[i + 1..]), h) ==
      if Correct(ws[i] + ws[j], h).Some? then Correct(ws[i] + ws[j], h)
      else FirstSuccess(Row(ws, i, j + 1) + Pairs(ws[i + 1..]), h)
  {
    RowStep(ws, i, j);
    var rest := Row(ws, i, j + 1) + Pairs(ws[i + 1..]);
    var all := Row(ws, i, j) + Pairs(ws[i + 1..]);
    assert all == [ws[i] + ws[j]] + rest;
    assert all[1..] == rest;
  }

  lemma WordsStep(pre: seq<string>, raw: string)
    ensures Words(pre + [raw]) == Words(pre) + (if IsMarker(Token(raw)) then [] else [Token(raw)])
    ensures HasMarker(pre + [raw]) == (HasMarker(pre) || IsMarker(Token(raw)))
  {
    var s := pre + [raw];
    assert s[..|s| - 1] == pre;
  }

  /** The round of the token loop at position `k`, on prefixes of `raws`. */
  lemma WordsPrefixStep(raws: seq<string>, k: nat)
    requires k < |raws|
    ensures var t := Clean(RemoveSpaces(raws[k]));
      Words(raws[..k + 1]) == Words(raws[..k]) + (if IsMarker(t) then [] else [t]) &&
      HasMarker(raws[..k + 1]) == (HasMarker(raws[..k]) || IsMarker(t))
  {
    assert raws[..k + 1] == raws[..k] + [raws[k]];
    WordsStep(raws[..k], raws[k]);
  }

  /** The first loop of the selection: it builds `detected_words` and switches
      the hint on when it meets the marker. */
  method DetectWords(raws: seq<string>, isNewPlate: bool) returns (words: seq<string>, isNew: bool)
    ensures words == Words(raws)
    ensures isNew == (isNewPlate || HasMarker(raws))
  {
    words := [];
    isNew := isNewPlate;
    for k := 0 to |raws|
      invariant words == Words(raws[..k])
      invariant isNewPlate ==> isNew
      invariant HasMarker(raws[..k]) ==> isNew
      invariant isNew ==> isNewPlate || HasMarker(raws[..k])
    {
      var text := RemoveSpaces(raws[k]);
      text := Clean(text);
      WordsPrefixStep(raws, k);
      if IsMarker(text) {
        isNew := true;
      } else {
        words := words + [text];
      }
    }
    assert raws[..|raws|] == raws;
  }

  /** The second loop: each word on its own, in order, until one corrects. */
  method TryWords(words: seq<string>, isNew: bool) returns (r: Option<string>)
    ensures r == FirstSuccess(words, isNew)
  {
    for k := 0 to |words|
      invariant FirstSuccess(words[..k], isNew) == None
    {
      var c := CorrectPlate(words[k], isNew);
      FirstSuccessAppend(words[..k], words[k..], isNew);
      assert words[..k] + words[k..] == words;
      if c.Some? {
        return c;
      }
      FirstSuccessAppend(words[..k], [words[k]], isNew);
      assert words[..k + 1] == words[..k] + [words[k]];
    }
    assert words[..|words|] == words;
    return None;
  }

  /** The nested loops: every pair i < j concatenated, until one corrects. */
  method TryPairs(words: seq<string>, isNew: bool) returns (r: Option<string>)
    ensures r == FirstSuccess(Pairs(words), isNew)
  {
    ghost var target := FirstSuccess(Pairs(words), isNew);
    for i := 0 to |words|
      invariant FirstSuccess(Pairs(words[i..]), isNew) == target
    {
      PairsSuffix(words, i);
      for j := i + 1 to |words|
        invariant FirstSuccess(Row(words, i, j) + Pairs(words[i + 1..]), isNew) == target
      {
        var combined := words[i] + words[j];
        PairStep(words, i, j, isNew);
        var c := CorrectPlate(combined, isNew);
        if c.Some? {
          return c;
        }
      }
      assert Row(words, i, |words|) + Pairs(words[i + 1..]) == Pairs(words[i + 1..]);
    }
    return None;
  }

  /** The selection as written: gather the words, try them one by one, then
      the pairs. */
  method SelectPlate(raws: seq<string>, isNewPlate: bool) returns (r: Option<string>)
    ensures r == Select(raws, isNewPlate)
  {
    var words, isNew := DetectWords(raws, isNewPlate);
    FirstSuccessAppend(words, Pairs(words), isNew);
    r := TryWords(words, isNew);
    if r.Some? {
      return r;
    }
    r := TryPairs(words, isNew);
  }

  /** The pairs are exactly the concatenations `ws[i] + ws[j]` with i < j. */
  lemma {:induction false} PairsAreOrderedConcatenations(ws: seq<string>, c: string)
    ensures c in Pairs(ws) <==> exists i, j :: 0 <= i < j < |ws| && c == ws[i] + ws[j]
    decreases |ws|
  {
    if ws != [] {
      PairsAreOrderedConcatenations(ws[1..], c);
      var row := Row(ws, 0, 1);
      assert Pairs(ws) == row + Pairs(ws[1..]);
      if c in row {
        var k :| 0 <= k < |row| && row[k] == c;
        assert c == ws[0] + ws[k + 1];
      } else if c in Pairs(ws[1..]) {
        var i, j :| 0 <= i < j < |ws[1..]| && c == ws[1..][i] + ws[1..][j];
        assert c == ws[i + 1] + ws[j + 1];
      }
      if exists i, j :: 0 <= i < j < |ws| && c == ws[i] + ws[j] {
        var i, j :| 0 <= i < j < |ws| && c == ws[i] + ws[j];
        if i == 0 {
          assert row[j - 1] == c;
        } else {
          assert c == ws[1..][i - 1] + ws[1..][j - 1];
        }
      }
    }
  }

  /** Where the pair (i, j) stands among the pairs of n words: row i starts
      after the n - 1, n - 2, ..., n - i pairs of the rows before it. */
  function PairIndex(n: nat, i: nat, j: nat): nat
    requires i < j < n
  {
    if i == 0 then j - 1 else (n - 1) + PairIndex(n - 1, i - 1, j - 1)
  }

  /** The pair (i, j) is tried at position PairIndex(|ws|, i, j). */
  lemma {:induction false} PairAt(ws: seq<string>, i: nat, j: nat)
    requires i < j < |ws|
    ensures PairIndex(|ws|, i, j) < |Pairs(ws)|
    ensures Pairs(ws)[PairIndex(|ws|, i, j)] == ws[i] + ws[j]
    decreases i
  {
    var row, rest := Row(ws, 0, 1), Pairs(ws[1..]);
    assert Pairs(ws) == row + rest;
    if i > 0 {
      var k := PairIndex(|ws| - 1, i - 1, j - 1);
      PairAt(ws[1..], i - 1, j - 1);
      assert (row + rest)[|row| + k] == rest[k];
      assert ws[1..][i - 1] == ws[i] && ws[1..][j - 1] == ws[j];
    } else {
      assert (row + rest)[j - 1] == row[j - 1];
    }
  }

  /** Pairs are tried in lexicographic order of (i, j): the nested loops. */
  lemma {:induction false} PairIndexIsLexicographic(n: nat, i: nat, j: nat, i': nat, j': nat)
    requires i < j < n && i' < j' < n
    requires i < i' || (i == i' && j < j')
    ensures PairIndex(n, i, j) < PairIndex(n, i', j')
    decreases i
  {
    if i == 0 {
    } else {
      PairIndexIsLexicographic(n - 1, i - 1, j - 1, i' - 1, j' - 1);
    }
  }

  /** Every single word is tried before any pair. */
  lemma WordsBeforePairs(ws: seq<string>, k: nat, i: nat, j: nat)
    requires k < |ws| && i < j < |ws|
    ensures PairIndex(|ws|, i, j) < |Pairs(ws)|
    ensures k < |ws| + PairIndex(|ws|, i, j)
    ensures Candidates(ws)[k] == ws[k]
    ensures Candidates(ws)[|ws| + PairIndex(|ws|, i, j)] == ws[i] + ws[j]
  {
    PairAt(ws, i, j);
  }

  /** A word that corrects on its own is preferred to any pair: the result is
      then the first such word's plate. */
  lemma SingleWordWins(ws: seq<string>, h: bool, k: nat)
    requires k < |ws| && Correct(ws[k], h).Some?
    ensures FirstSuccess(Candidates(ws), h) == FirstSuccess(ws, h)
    ensures FirstSuccess(ws, h).Some?
  {
    FirstSuccessAppend(ws, Pairs(ws), h);
    FirstSuccessMeaning(ws, h);
  }

  /** Every candidate tried is a non-marker token of the input, or a
      concatenation of two of them in input order. */
  lemma {:induction false} CandidatesComeFromTokens(raws: seq<string>, c: string)
    requires c in Candidates(Words(raws))
    ensures c in Words(raws) || exists i, j :: 0 <= i < j < |Words(raws)| && c == Words(raws)[i] + Words(raws)[j]
    ensures forall w :: w in Words(raws) ==> !IsMarker(w) && exists k :: 0 <= k < |raws| && w == Token(raws[k])
  {
    PairsAreOrderedConcatenations(Words(raws), c);
    WordsAreTokens(raws);
  }

  lemma {:induction false} WordsAreTokens(raws: seq<string>)
    ensures forall w :: w in Words(raws) ==> exists k :: 0 <= k < |raws| && w == Token(raws[k])
  {
    if raws != [] {
      var init := raws[..|raws| - 1];
      WordsAreTokens(init);
      forall w | w in Words(raws) ensures exists k :: 0 <= k < |raws| && w == Token(raws[k]) {
        if w in Words(init) {
          var k :| 0 <= k < |init| && w == Token(init[k]);
          assert raws[k] == init[k];
        } else {
          assert w == Token(raws[|raws| - 1]);
        }
      }
    }
  }

  lemma {:induction false} WordsAppend(a: seq<string>, b: seq<string>)
    ensures Words(a + b) == Words(a) + Words(b)
    decreases |b|
  {
    if b == [] {
      assert a + b == a;
    } else {
      var b' := b[..|b| - 1];
      assert (a + b)[..|a + b| - 1] == a + b';
      assert (a + b)[|a + b| - 1] == b[|b| - 1];
      WordsAppend(a, b');
    }
  }

  /** A marker token anywhere is dropped and puts the hint on for every
      attempt, those built from tokens before it included. */
  lemma MarkerAnywhere(a: seq<string>, marker: string, b: seq<string>, isNewPlate: bool)
    requires IsMarker(Token(marker))
    ensures Words(a + [marker] + b) == Words(a + b)
    ensures Select(a + [marker] + b, isNewPlate) == FirstSuccess(Candidates(Words(a + b)), true)
  {
    var all := a + [marker] + b;
    assert Words(all) == Words(a + b) by {
      WordsAppend(a + [marker], b);
      WordsAppend(a, [marker]);
      WordsAppend(a, b);
      WordsOfOne(marker);
    }
    MarkerPresent(a, marker, b);
  }

  lemma MarkerPresent(a: seq<string>, marker: string, b: seq<string>)
    requires IsMarker(Token(marker))
    ensures HasMarker(a + [marker] + b)
  {
    var all := a + [marker] + b;
    HasMarkerMeaning(all);
    assert all[|a|] == marker;
  }

  /** When no token is the marker the hint given by the caller is used as it is. */
  lemma NoMarkerKeepsHint(raws: seq<string>, isNewPlate: bool)
    requires forall k :: 0 <= k < |raws| ==> !IsMarker(Token(raws[k]))
    ensures Select(raws, isNewPlate) == FirstSuccess(Candidates(Words(raws)), isNewPlate)
  {
    HasMarkerMeaning(raws);
  }

  lemma WordsOfOne(raw: string)
    ensures Words([raw]) == if IsMarker(Token(raw)) then [] else [Token(raw)]
  {
    assert [raw][..0] == [];
  }

  /** A clean token without spaces is its own token. */
  lemma TokenOfClean(s: string)
    requires IsClean(s)
    ensures Token(s) == s
  {
    CleanIgnoresSpaces(s);
    CleanKeepsClean(s);
  }

  /** Worked case: the two OCR fragments of a split plate are their own tokens. */
  lemma ExampleTokenAB()
    ensures Token("AB") == "AB" && !IsMarker("AB")
  {
    TokenOfClean("AB");
    assert |Lower("AB")| != |Marker|;
  }

  lemma ExampleTokenC1234()
    ensures Token("C1234") == "C1234" && !IsMarker("C1234")
  {
    TokenOfClean("C1234");
    assert |Lower("C1234")| != |Marker|;
  }

  lemma ExampleWords()
    ensures Words(["AB", "C1234"]) == ["AB", "C1234"]
    ensures !HasMarker(["AB", "C1234"])
  {
    var first, both := ["AB"], ["AB", "C1234"];
    assert both == first + ["C1234"];
    ExampleWordsFirst();
    ExampleTokenC1234();
    WordsStep(first, "C1234");
  }

  lemma ExampleWordsFirst()
    ensures Words(["AB"]) == ["AB"] && !HasMarker(["AB"])
  {
    var none: seq<string> := [];
    assert none + ["AB"] == ["AB"];
    ExampleTokenAB();
    WordsStep(none, "AB");
  }

  lemma ExampleCandidates()
    ensures Candidates(["AB", "C1234"]) == ["AB", "C1234", "ABC1234"]
  {
    var ws := ["AB", "C1234"];
    assert Pairs(ws) == ["AB" + "C1234"] by {
      assert Row(ws, 0, 1) == ["AB" + "C1234"];
      assert Pairs(ws[1..]) == Row(ws[1..], 0, 1) + Pairs(ws[1..][1..]);
      assert ws[1..][1..] == [];
    }
    assert "AB" + "C1234" == "ABC1234";
  }

  /** Worked case: two fragments that only form a plate together, with the
      same result as correcting their concatenation directly. */
  lemma ExampleSplitFragments()
    ensures Select(["AB", "C1234"], false) == Some("ABC1234")
    ensures Select(["AB", "C1234"], false) == Correct("AB" + "C1234", false)
  {
    ExampleJoined();
    var cs := ["AB", "C1234", "ABC1234"];
    assert Select(["AB", "C1234"], false) == FirstSuccess(cs, false) by {
      ExampleWords();
      ExampleCandidates();
    }
    assert FirstSuccess(cs, false) == Some("ABC1234") by {
      CurrentOrLegacyExample();
      assert cs[1..][1..] == ["ABC1234"];
    }
  }

  lemma ExampleJoined()
    ensures Correct("AB" + "C1234", false) == Some("ABC1234")
  {
    JoinedFragments();
    CurrentOrLegacyExample();
  }

  lemma JoinedFragments()
    ensures "AB" + "C1234" == "ABC1234"
  {
  }
}
