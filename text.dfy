/**
 * The few java.lang.String operations the force-register command relies on,
 * restricted to ASCII: `toLowerCase`, `equalsIgnoreCase`, `indexOf`,
 * `replace(".", "")` and `replaceAll("[^a-z]", "")`.
 */
module Text {

  datatype Option<T> = None | Some(value: T)

  predicate IsAsciiUpper(c: char) { 'A' <= c <= 'Z' }

  predicate IsAsciiLower(c: char) { 'a' <= c <= 'z' }

  function ToLowerChar(c: char): char
  {
    if IsAsciiUpper(c) then (c as int + 32) as char else c
  }

  /** `String.toLowerCase`, folding only the letters A-Z. */
  function ToLowerCase(s: string): (r: string)
    ensures |r| == |s|
  {
    if s == [] then [] else [ToLowerChar(s[0])] + ToLowerCase(s[1..])
  }

  /**
   * Lower-casing works character by character and leaves no capital behind.
   * Kept out of ToLowerCase's own contract so that callers that do not need
   * it are not burdened with its quantifiers.
   */
  lemma {:induction false} ToLowerCaseAt(s: string)
    ensures forall i :: 0 <= i < |s| ==> ToLowerCase(s)[i] == ToLowerChar(s[i])
    ensures forall i :: 0 <= i < |s| ==> !IsAsciiUpper(ToLowerCase(s)[i])
  {
    if s != [] {
      ToLowerCaseAt(s[1..]);
    }
  }

  /** `String.equalsIgnoreCase`, ASCII folding only. */
  predicate EqualsIgnoreCase(a: string, b: string)
  {
    ToLowerCase(a) == ToLowerCase(b)
  }

  /**
   * Ignoring case means comparing position by position after folding each
   * character: equal lengths, and every pair of characters equal once folded.
   */
  lemma EqualsIgnoreCasePointwise(a: string, b: string)
    ensures EqualsIgnoreCase(a, b) <==>
      |a| == |b| && forall i :: 0 <= i < |a| ==> ToLowerChar(a[i]) == ToLowerChar(b[i])
  {
    ToLowerCaseAt(a);
    ToLowerCaseAt(b);
    if |a| == |b| && forall i :: 0 <= i < |a| ==> ToLowerChar(a[i]) == ToLowerChar(b[i]) {
      assert forall i :: 0 <= i < |a| ==> ToLowerCase(a)[i] == ToLowerCase(b)[i];
    }
  }

  /** Number of UTF-16 code units of `c`: two for a character outside the Basic Multilingual Plane. */
  function Utf16Units(c: char): nat
  {
    if c as int >= 0x1_0000 then 2 else 1
  }

  /** `String.length()`: the number of UTF-16 code units, not of characters. */
  function Utf16Length(s: string): (r: nat)
    ensures |s| <= r <= 2 * |s|
  {
    if s == [] then 0 else Utf16Units(s[0]) + Utf16Length(s[1..])
  }

  /** Within the Basic Multilingual Plane, `length()` counts characters. */
  lemma {:induction false} Utf16LengthOfBmp(s: string)
    requires forall i :: 0 <= i < |s| ==> s[i] as int < 0x1_0000
    ensures Utf16Length(s) == |s|
  {
    if s != [] {
      Utf16LengthOfBmp(s[1..]);
    }
  }

  /** `String.indexOf(c)`: the first position of `c`, or -1 when `c` does not occur. */
  function IndexOf(s: string, c: char): (r: int)
    ensures -1 <= r < |s|
    ensures r == -1 <==> c !in s
    ensures 0 <= r ==> s[r] == c && c !in s[..r]
  {
    if s == [] then -1
    else if s[0] == c then 0
    else
      var k := IndexOf(s[1..], c);
      if k < 0 then -1
      else
        assert s[..k + 1] == [s[0]] + s[1..][..k];
        k + 1
  }

  /**
   * `s.substring(0, i)` and `s.substring(i + 1)` for `i == s.indexOf(c)`;
   * None where `indexOf` gives -1 and `substring(0, -1)` would throw.
   */
  function SplitAtFirst(s: string, c: char): (r: Option<(string, string)>)
    ensures r.None? <==> c !in s
  {
    var i := IndexOf(s, c);
    if i < 0 then None else Some((s[..i], s[i + 1..]))
  }

  /** Splitting at the first `c` loses nothing: the parts joined by `c` give back `s`. */
  lemma SplitAtFirstRoundTrip(s: string, c: char)
    requires c in s
    ensures SplitAtFirst(s, c).Some?
    ensures var (before, after) := SplitAtFirst(s, c).value;
      s == before + [c] + after && c !in before
  {
    var i := IndexOf(s, c);
    assert s == s[..i] + [c] + s[i + 1..];
  }

  /** `s.replace(String.valueOf(c), "")`: every occurrence of `c` deleted, the rest kept in order. */
  function RemoveAll(s: string, c: char): (r: string)
    ensures c !in r
    ensures |r| <= |s|
  {
    if s == [] then []
    else if s[0] == c then RemoveAll(s[1..], c)
    else [s[0]] + RemoveAll(s[1..], c)
  }

  /** `s.replaceAll("[^a-z]", "")`: only the letters a-z, in their original order. */
  function LettersOnly(s: string): (r: string)
    ensures |r| <= |s|
  {
    if s == [] then []
    else if IsAsciiLower(s[0]) then [s[0]] + LettersOnly(s[1..])
    else LettersOnly(s[1..])
  }

  /** RemoveAll keeps every other character as often as it occurs, and changes nothing without `c`. */
  lemma {:induction false} RemoveAllKeepsOthers(s: string, c: char)
    ensures forall d :: d != c ==> multiset(RemoveAll(s, c))[d] == multiset(s)[d]
    ensures c !in s ==> RemoveAll(s, c) == s
  {
    if s != [] {
      assert s == [s[0]] + s[1..];
      RemoveAllKeepsOthers(s[1..], c);
    }
  }

  /** LettersOnly keeps the letters a-z, each as often as it occurs, and nothing else. */
  lemma {:induction false} LettersOnlyKeepsLetters(s: string)
    ensures forall i :: 0 <= i < |LettersOnly(s)| ==> IsAsciiLower(LettersOnly(s)[i])
    ensures forall d :: IsAsciiLower(d) ==> multiset(LettersOnly(s))[d] == multiset(s)[d]
  {
    if s != [] {
      assert s == [s[0]] + s[1..];
      LettersOnlyKeepsLetters(s[1..]);
    }
  }

  /** A string of letters a-z comes back unchanged, a string without any comes back empty. */
  lemma {:induction false} LettersOnlyExtremes(s: string)
    ensures (forall i :: 0 <= i < |s| ==> IsAsciiLower(s[i])) ==> LettersOnly(s) == s
    ensures (forall i :: 0 <= i < |s| ==> !IsAsciiLower(s[i])) ==> LettersOnly(s) == []
  {
    if s != [] {
      LettersOnlyExtremes(s[1..]);
    }
  }

  /** Filtering commutes with concatenation, so the letters keep their order. */
  lemma {:induction false} LettersOnlyAppend(a: string, b: string)
    ensures LettersOnly(a + b) == LettersOnly(a) + LettersOnly(b)
  {
    if a != [] {
      assert (a + b)[1..] == a[1..] + b;
      LettersOnlyAppend(a[1..], b);
    } else {
      assert a + b == b;
    }
  }

  /** Deleting a character commutes with concatenation, so the survivors keep their order. */
  lemma {:induction false} RemoveAllAppend(a: string, b: string, c: char)
    ensures RemoveAll(a + b, c) == RemoveAll(a, c) + RemoveAll(b, c)
  {
    if a != [] {
      assert (a + b)[1..] == a[1..] + b;
      RemoveAllAppend(a[1..], b, c);
    } else {
      assert a + b == b;
    }
  }
}
