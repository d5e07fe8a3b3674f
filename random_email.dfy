/**
 * The "looks like a randomly generated address" classifier of the
 * force-register command (`looksLikeRandomEmail`).  The letters of the
 * local part are split into vowels and consonants; the classifier looks at
 * how many of each there are and at the longest run of consonants.
 */
module RandomEmail {
  import opened Text

  /** A member of "aeiou". */
  predicate IsVowel(c: char) { c == 'a' || c == 'e' || c == 'i' || c == 'o' || c == 'u' }

  function Max(a: int, b: int): int { if a < b then b else a }

  /** Number of vowels in `s`. */
  function CountVowels(s: string): nat
  {
    if s == [] then 0
    else CountVowels(s[..|s| - 1]) + (if IsVowel(s[|s| - 1]) then 1 else 0)
  }

  /** Number of characters of `s` that are not vowels. */
  function CountConsonants(s: string): nat
  {
    if s == [] then 0
    else CountConsonants(s[..|s| - 1]) + (if IsVowel(s[|s| - 1]) then 0 else 1)
  }

  /** Length of the run of consonants that ends `s`. */
  function TrailingRun(s: string): nat
  {
    if s == [] || IsVowel(s[|s| - 1]) then 0 else TrailingRun(s[..|s| - 1]) + 1
  }

  /** Length of the longest run of consecutive consonants anywhere in `s`. */
  function LongestRun(s: string): nat
  {
    if s == [] then 0 else Max(LongestRun(s[..|s| - 1]), TrailingRun(s))
  }

  /** `s[i..i + k]` is a block of `k` consecutive consonants. */
  ghost predicate ConsonantRunAt(s: string, i: int, k: nat)
  {
    0 <= i && i + k <= |s| && forall j :: i <= j < i + k ==> !IsVowel(s[j])
  }

  /** The letters the classifier looks at: a-z after lower-casing, everything else dropped. */
  function Letters(localPart: string): string
  {
    LettersOnly(ToLowerCase(localPart))
  }

  /**
   * The classifier's decision, rule by rule and in the order the rules are
   * tried.  The ratio test `consonants / vowels > 4.0` is written as the
   * integer comparison `consonants > 4 * vowels` (see RatioAsInteger).
   */
  predicate LooksRandom(localPart: string)
  {
    var letters := Letters(localPart);
    var vowels := CountVowels(letters);
    var consonants := CountConsonants(letters);
    if |letters| < 2 && Utf16Length(localPart) > 4 then true
    else if |letters| == 0 then false
    else if LongestRun(letters) >= 5 then true
    else if |letters| >= 6 && vowels > 0 && consonants > 4 * vowels then true
    else if vowels == 0 && |letters| >= 5 then true
    else false
  }

  /** The classifier itself: one left-to-right pass over the letters with four counters. */
  method LooksLikeRandomEmail(localPart: string) returns (random: bool)
    ensures random == LooksRandom(localPart)
  {
    var letters := LettersOnly(ToLowerCase(localPart));
    if |letters| < 2 && Utf16Length(localPart) > 4 {
      return true;
    }
    if |letters| == 0 {
      return false;
    }

    var vowels, consonants := 0, 0;
    var maxConsecutiveConsonants, currentConsonants := 0, 0;
    for i := 0 to |letters|
      invariant vowels == CountVowels(letters[..i])
      invariant consonants == CountConsonants(letters[..i])
      invariant currentConsonants == TrailingRun(letters[..i])
      invariant maxConsecutiveConsonants == LongestRun(letters[..i])
    {
      assert letters[..i + 1][..i] == letters[..i];
      if IsVowel(letters[i]) {
        vowels := vowels + 1;
        currentConsonants := 0;
      } else {
        consonants := consonants + 1;
        currentConsonants := currentConsonants + 1;
        maxConsecutiveConsonants := Max(maxConsecutiveConsonants, currentConsonants);
      }
    }
    assert letters[..|letters|] == letters;

    if maxConsecutiveConsonants >= 5 {
      return true;
    }
    if |letters| >= 6 && vowels > 0 {
      if consonants > 4 * vowels {
        return true;
      }
    }
    if vowels == 0 && |letters| >= 5 {
      return true;
    }
    return false;
  }

  // ---------------------------------------------------------------------
  // Facts about the counters

  /** Every letter is counted once, and a run of consonants never exceeds the consonants counted. */
  lemma {:induction false} CountsPartition(s: string)
    ensures CountVowels(s) + CountConsonants(s) == |s|
    ensures TrailingRun(s) <= CountConsonants(s)
    ensures LongestRun(s) <= CountConsonants(s)
  {
    if s != [] {
      CountsPartition(s[..|s| - 1]);
    }
  }

  /** The run that ends `s` really is a block of consonants. */
  lemma {:induction false} TrailingRunIsRun(s: string)
    ensures ConsonantRunAt(s, |s| - TrailingRun(s), TrailingRun(s))
  {
    if s != [] && !IsVowel(s[|s| - 1]) {
      TrailingRunIsRun(s[..|s| - 1]);
    }
  }

  /** A block of `k` consonants at the end of `s` makes the trailing run at least `k` long. */
  lemma {:induction false} TrailingRunCovers(s: string, k: nat)
    requires ConsonantRunAt(s, |s| - k, k)
    ensures TrailingRun(s) >= k
  {
    if k > 0 {
      var t := s[..|s| - 1];
      assert ConsonantRunAt(t, |t| - (k - 1), k - 1);
      TrailingRunCovers(t, k - 1);
    }
  }

  /** LongestRun is attained: some block of that many consonants exists. */
  lemma {:induction false} LongestRunIsRun(s: string)
    ensures exists i :: ConsonantRunAt(s, i, LongestRun(s))
  {
    if s == [] {
      assert ConsonantRunAt(s, 0, 0);
    } else {
      var t := s[..|s| - 1];
      if LongestRun(t) >= TrailingRun(s) {
        LongestRunIsRun(t);
        var i :| ConsonantRunAt(t, i, LongestRun(t));
        assert ConsonantRunAt(s, i, LongestRun(s));
      } else {
        TrailingRunIsRun(s);
        assert ConsonantRunAt(s, |s| - TrailingRun(s), LongestRun(s));
      }
    }
  }

  /** LongestRun is an upper bound: no block of consonants is longer. */
  lemma {:induction false} LongestRunIsMaximal(s: string, i: int, k: nat)
    requires ConsonantRunAt(s, i, k)
    ensures k <= LongestRun(s)
  {
    if i + k == |s| {
      TrailingRunCovers(s, k);
    } else {
      var t := s[..|s| - 1];
      assert ConsonantRunAt(t, i, k);
      LongestRunIsMaximal(t, i, k);
    }
  }

  /** Without vowels the whole string is one run of consonants. */
  lemma {:induction false} NoVowelsOneRun(s: string)
    requires CountVowels(s) == 0
    ensures TrailingRun(s) == |s| && LongestRun(s) == |s|
  {
    if s != [] {
      NoVowelsOneRun(s[..|s| - 1]);
    }
  }

  /** Only vowels: nothing counted as a consonant. */
  lemma {:induction false} AllVowelsNoConsonants(s: string)
    requires forall i :: 0 <= i < |s| ==> IsVowel(s[i])
    ensures CountConsonants(s) == 0
  {
    if s != [] {
      AllVowelsNoConsonants(s[..|s| - 1]);
    }
  }

  // ---------------------------------------------------------------------
  // Rule by rule

  /** Fewer than two letters in a local part longer than four characters: random. */
  lemma FewLettersLongLocalPartIsRandom(localPart: string)
    requires |Letters(localPart)| < 2 && Utf16Length(localPart) > 4
    ensures LooksRandom(localPart)
  {
  }

  /** No letters at all in a local part of at most four characters: not random. */
  lemma NoLettersShortLocalPartIsNotRandom(localPart: string)
    requires |Letters(localPart)| == 0 && Utf16Length(localPart) <= 4
    ensures !LooksRandom(localPart)
  {
  }

  /** Five consecutive consonants among the letters make the address random, wherever they stand. */
  lemma FiveConsonantsInARowIsRandom(localPart: string, i: int)
    requires ConsonantRunAt(Letters(localPart), i, 5)
    ensures LooksRandom(localPart)
  {
    var letters := Letters(localPart);
    LongestRunIsMaximal(letters, i, 5);
    CountsPartition(letters);
  }

  /** At least six letters and more than four consonants per vowel: random. */
  lemma ConsonantHeavyIsRandom(localPart: string)
    requires |Letters(localPart)| >= 6
    requires CountVowels(Letters(localPart)) > 0
    requires CountConsonants(Letters(localPart)) > 4 * CountVowels(Letters(localPart))
    ensures LooksRandom(localPart)
  {
  }

  /**
   * The last rule never decides anything: with no vowels and at least five
   * letters, the consonant-run rule has already answered.
   */
  lemma NoVowelRuleSubsumed(localPart: string)
    requires CountVowels(Letters(localPart)) == 0 && |Letters(localPart)| >= 5
    ensures LongestRun(Letters(localPart)) >= 5
  {
    NoVowelsOneRun(Letters(localPart));
  }

  /**
   * The classifier as one disjunction of three conditions, with the rules'
   * order and the redundant last rule eliminated.
   */
  lemma LooksRandomCharacterization(localPart: string)
    ensures LooksRandom(localPart) <==>
      var letters := Letters(localPart);
      (|letters| < 2 && Utf16Length(localPart) > 4)
      || LongestRun(letters) >= 5
      || (|letters| >= 6 && CountVowels(letters) > 0
          && CountConsonants(letters) > 4 * CountVowels(letters))
  {
    var letters := Letters(localPart);
    CountsPartition(letters);
    if CountVowels(letters) == 0 {
      NoVowelsOneRun(letters);
    }
  }

  /** Division by a positive number compared with 4.0, without the division. */
  lemma QuotientAboveFour(x: real, y: real)
    requires y > 0.0
    ensures x / y > 4.0 <==> x > 4.0 * y
  {
    var q := x / y;
    assert x == q * y;
    assert x - 4.0 * y == (q - 4.0) * y;
  }

  /** For a positive vowel count the ratio test over the reals is the integer test used here. */
  lemma RatioAsInteger(consonants: nat, vowels: nat)
    requires vowels > 0
    ensures (consonants as real) / (vowels as real) > 4.0 <==> consonants > 4 * vowels
  {
    QuotientAboveFour(consonants as real, vowels as real);
  }

  /** A local part already made of the letters a-z is its own letter string. */
  lemma LettersOfLowercase(s: string)
    requires forall i :: 0 <= i < |s| ==> IsAsciiLower(s[i])
    ensures Letters(s) == s
  {
    ToLowerCaseAt(s);
    assert ToLowerCase(s) == s;
    LettersOnlyExtremes(s);
  }

  /** A local part without any ASCII letter has no letters to classify. */
  lemma LettersOfNonLetters(s: string)
    requires forall i :: 0 <= i < |s| ==> !IsAsciiLower(s[i]) && !IsAsciiUpper(s[i])
    ensures Letters(s) == []
  {
    ToLowerCaseAt(s);
    assert ToLowerCase(s) == s;
    LettersOnlyExtremes(s);
  }

  // Boundary cases.  Each takes its input as a parameter equal to a
  // literal, which keeps the verifier from unfolding the letter filters on
  // the literal eagerly.

  lemma ExampleEmpty()
    ensures !LooksRandom("")
  {
  }

  lemma ExampleTwoConsonants(s: string)
    requires s == "bc"
    ensures !LooksRandom(s)
  {
    LettersOfLowercase(s);
    CountsPartition(s);
  }

  lemma ExampleFiveDigits(s: string)
    requires s == "12345"
    ensures LooksRandom(s)
  {
    Utf16LengthOfBmp(s);
    LettersOfNonLetters(s);
  }

  /**
   * Three characters outside the Basic Multilingual Plane are six UTF-16
   * units long, so with no letters among them the first rule fires.
   */
  lemma ExampleSupplementaryCharacters(s: string)
    requires s == "\U{1F600}\U{1F600}\U{1F600}"
    ensures Utf16Length(s) == 6
    ensures LooksRandom(s)
  {
    assert s[0] == s[1] == s[2] == '\U{1F600}';
    assert s[1..][1..][1..] == [];
    assert Utf16Length(s[1..][1..]) == 2;
    assert Utf16Length(s[1..]) == 4;
    LettersOfNonLetters(s);
  }

  lemma ExampleFiveConsonants(s: string)
    requires s == "bcdfg"
    ensures LooksRandom(s)
  {
    assert ConsonantRunAt(s, 0, 5) by {
      assert s[0] == 'b' && s[1] == 'c' && s[2] == 'd' && s[3] == 'f' && s[4] == 'g';
    }
    LettersOfLowercase(s);
    FiveConsonantsInARowIsRandom(s, 0);
  }

  lemma ExampleSixConsonants(s: string)
    requires s == "xyzxyz"
    ensures LongestRun(Letters(s)) == 6
    ensures LooksRandom(s)
  {
    assert ConsonantRunAt(s, 0, 6) by {
      assert s[0] == 'x' && s[1] == 'y' && s[2] == 'z' && s[3] == 'x' && s[4] == 'y' && s[5] == 'z';
    }
    LettersOfLowercase(s);
    LongestRunIsMaximal(s, 0, 6);
    CountsPartition(s);
  }

  lemma ExampleAllVowels(s: string)
    requires s == "aeiou"
    ensures !LooksRandom(s)
  {
    assert forall i :: 0 <= i < |s| ==> IsVowel(s[i]) by {
      assert s[0] == 'a' && s[1] == 'e' && s[2] == 'i' && s[3] == 'o' && s[4] == 'u';
    }
    AllVowelsNoConsonants(s);
    LettersOfLowercase(s);
    CountsPartition(s);
  }
}
