/**
 * Text normalisation of OCR output (`limpar_placa` in utils.py):
 * upper-case the text and keep only the characters A-Z and 0-9.
 * Characters are modelled as ASCII; Python's Unicode case mapping is not modelled.
 */
module Text {

  predicate IsUpper(c: char) { 'A' <= c <= 'Z' }

  predicate IsLower(c: char) { 'a' <= c <= 'z' }

  /** `str.isdigit` on ASCII input. */
  predicate IsDigit(c: char) { '0' <= c <= '9' }

  /** `str.isalpha` on ASCII input. */
  predicate IsAlpha(c: char) { IsUpper(c) || IsLower(c) }

  /** A character that survives the cleanup: the class `[A-Z0-9]`. */
  predicate IsPlateChar(c: char) { IsUpper(c) || IsDigit(c) }

  /** A string made only of plate characters. */
  predicate IsClean(s: string) { forall i :: 0 <= i < |s| ==> IsPlateChar(s[i]) }

  /** ASCII `str.upper` on one character. */
  function UpperChar(c: char): (u: char)
    ensures IsLower(c) ==> IsUpper(u) && u as int == c as int - 32
    ensures !IsLower(c) ==> u == c
  {
    if IsLower(c) then (c as int - 32) as char else c
  }

  /** ASCII `str.lower` on one character. */
  function LowerChar(c: char): (l: char)
    ensures IsUpper(c) ==> IsLower(l) && l as int == c as int + 32
    ensures !IsUpper(c) ==> l == c
  {
    if IsUpper(c) then (c as int + 32) as char else c
  }

  /** ASCII `str.lower` on a string. */
  function Lower(s: string): (r: string)
    ensures |r| == |s|
    ensures forall i :: 0 <= i < |s| ==> r[i] == LowerChar(s[i])
  {
    if s == [] then [] else [LowerChar(s[0])] + Lower(s[1..])
  }

  /** `text.replace(" ", "")`. */
  function RemoveSpaces(s: string): (r: string)
    ensures ' ' !in r
    ensures |r| <= |s|
  {
    if s == [] then []
    else (if s[0] == ' ' then [] else [s[0]]) + RemoveSpaces(s[1..])
  }

  /** `limpar_placa`: `re.sub(r'[^A-Z0-9]', '', texto.upper())`. */
  function Clean(s: string): (r: string)
    ensures IsClean(r)
    ensures |r| <= |s|
  {
    if s == [] then []
    else
      var c := UpperChar(s[0]);
      (if IsPlateChar(c) then [c] else []) + Clean(s[1..])
  }

  /** A string that is already clean is returned unchanged. */
  lemma {:induction false} CleanKeepsClean(s: string)
    requires IsClean(s)
    ensures Clean(s) == s
  {
    if s != [] {
      assert IsClean(s[1..]) by {
        forall i | 0 <= i < |s[1..]| ensures IsPlateChar(s[1..][i]) {
          assert s[1..][i] == s[i + 1];
        }
      }
      CleanKeepsClean(s[1..]);
      assert s == [s[0]] + s[1..];
    }
  }

  /** Cleanup is idempotent. */
  lemma CleanIdempotent(s: string)
    ensures Clean(Clean(s)) == Clean(s)
  {
    CleanKeepsClean(Clean(s));
  }

  /** Cleanup distributes over concatenation, so a concatenation of
      cleaned tokens is itself clean and cleans to itself. */
  lemma {:induction false} CleanAppend(s: string, t: string)
    ensures Clean(s + t) == Clean(s) + Clean(t)
  {
    if s == [] {
      assert s + t == t;
    } else {
      var st := s + t;
      assert st[1..] == s[1..] + t;
      assert st[0] == s[0];
      var c := UpperChar(s[0]);
      var head := if IsPlateChar(c) then [c] else [];
      assert Clean(st) == head + Clean(s[1..] + t);
      assert Clean(s) == head + Clean(s[1..]);
      CleanAppend(s[1..], t);
      assert head + (Clean(s[1..]) + Clean(t)) == (head + Clean(s[1..])) + Clean(t);
    }
  }

  /** Removing the spaces before the cleanup (utils.py line 153) changes nothing. */
  lemma {:induction false} CleanIgnoresSpaces(s: string)
    ensures Clean(RemoveSpaces(s)) == Clean(s)
  {
    if s != [] {
      CleanIgnoresSpaces(s[1..]);
      var head := if s[0] == ' ' then [] else [s[0]];
      CleanAppend(head, RemoveSpaces(s[1..]));
      if s[0] != ' ' {
        assert head[1..] == [];
      }
    }
  }

  /** Number of occurrences of `c` in `s`. */
  function CountChar(s: string, c: char): (n: nat)
    ensures n <= |s|
  {
    if s == [] then 0 else (if s[0] == c then 1 else 0) + CountChar(s[1..], c)
  }

  /** Nothing but case is changed and every plate character is kept: each
      upper-case letter of the result counts its upper- and lower-case
      occurrences in the input, each digit its own, every other character none. */
  lemma {:induction false} CleanCounts(s: string, c: char)
    ensures IsPlateChar(c) ==> CountChar(Clean(s), c) == CountChar(s, c) + (if IsUpper(c) then CountChar(s, LowerChar(c)) else 0)
    ensures !IsPlateChar(c) ==> CountChar(Clean(s), c) == 0
  {
    if s != [] {
      CleanCounts(s[1..], c);
      var u := UpperChar(s[0]);
      var head := if IsPlateChar(u) then [u] else [];
      CountAppend(head, Clean(s[1..]), c);
      if head != [] {
        assert head[1..] == [];
      }
    }
  }

  lemma {:induction false} CountAppend(s: string, t: string, c: char)
    ensures CountChar(s + t, c) == CountChar(s, c) + CountChar(t, c)
  {
    if s == [] {
      assert s + t == t;
    } else {
      assert (s + t)[1..] == s[1..] + t;
      CountAppend(s[1..], t, c);
    }
  }

  /** Removing spaces works character by character: it distributes over
      concatenation, so the remaining characters keep their order. */
  lemma {:induction false} RemoveSpacesAppend(s: string, t: string)
    ensures RemoveSpaces(s + t) == RemoveSpaces(s) + RemoveSpaces(t)
  {
    if s == [] {
      assert s + t == t;
    } else {
      assert (s + t)[1..] == s[1..] + t;
      RemoveSpacesAppend(s[1..], t);
    }
  }

  /** A space disappears and any other character stays. */
  lemma RemoveSpacesChar(c: char)
    ensures RemoveSpaces([c]) == if c == ' ' then [] else [c]
  {
    assert [c][1..] == [];
  }

  /** Every character other than the space is kept as often as it occurs. */
  lemma {:induction false} RemoveSpacesCounts(s: string, c: char)
    ensures CountChar(RemoveSpaces(s), c) == if c == ' ' then 0 else CountChar(s, c)
  {
    if s != [] {
      RemoveSpacesCounts(s[1..], c);
      var head := if s[0] == ' ' then [] else [s[0]];
      CountAppend(head, RemoveSpaces(s[1..]), c);
      if head != [] {
        assert head[1..] == [];
      }
    }
  }

  /** A text without spaces is returned unchanged. */
  lemma {:induction false} RemoveSpacesKeeps(s: string)
    requires ' ' !in s
    ensures RemoveSpaces(s) == s
  {
    if s != [] {
      assert ' ' !in s[1..] by {
        assert forall k :: 0 <= k < |s| - 1 ==> s[1..][k] == s[k + 1];
      }
      RemoveSpacesKeeps(s[1..]);
      assert s == [s[0]] + s[1..];
    }
  }

  /** The token test of utils.py line 156, `text.lower() == "brasil"`, on a
      cleaned token holds exactly for the token "BRASIL". */
  lemma CleanBrasil(t: string)
    requires IsClean(t)
    ensures Lower(t) == "brasil" <==> t == "BRASIL"
  {
    if Lower(t) == "brasil" {
      assert |t| == 6;
      forall i | 0 <= i < 6 ensures t[i] == "BRASIL"[i] {
        assert LowerChar(t[i]) == "brasil"[i];
        assert IsPlateChar(t[i]);
      }
    }
  }
}
