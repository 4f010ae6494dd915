/** The string operations the configuration code relies on: trimming white space,
    upper-casing ASCII letters, and the "first non-blank value" helper. */
module Text {

  predicate IsSpace(c: char) {
    || c in {' ', '\t', '\n', '\r', '\U{0B}', '\U{0C}', '\U{85}', '\U{A0}'}
    || c in {'\U{1680}', '\U{2028}', '\U{2029}', '\U{202F}', '\U{205F}', '\U{3000}'}
    || '\U{2000}' <= c <= '\U{200A}'
  }

  /** White space by code point: tab to carriage return, space, and Unicode's other White_Space characters. */
  lemma SpaceCodes(c: char)
    ensures IsSpace(c) <==>
            c as int in {0x9, 0xA, 0xB, 0xC, 0xD, 0x20, 0x85, 0xA0, 0x1680, 0x2000, 0x2001, 0x2002, 0x2003, 0x2004, 0x2005, 0x2006,
                         0x2007, 0x2008, 0x2009, 0x200A, 0x2028, 0x2029, 0x202F, 0x205F, 0x3000}
  {
  }

  /** No white space at either end. */
  predicate Trimmed(s: string) {
    s == "" || (!IsSpace(s[0]) && !IsSpace(s[|s| - 1]))
  }

  /** The first visible character at or after i, or the length. */
  function VisibleFrom(s: string, i: nat): (k: nat)
    requires i <= |s|
    ensures i <= k <= |s|
    ensures k < |s| ==> !IsSpace(s[k])
    decreases |s| - i
  {
    if i < |s| && IsSpace(s[i]) then VisibleFrom(s, i + 1) else i
  }

  /** The end of the last visible character at or before j, or 0. */
  function VisibleTo(s: string, j: nat): (k: nat)
    requires j <= |s|
    ensures k <= j
    ensures k > 0 ==> !IsSpace(s[k - 1])
  {
    if j > 0 && IsSpace(s[j - 1]) then VisibleTo(s, j - 1) else j
  }

  function TrimSpace(s: string): (r: string)
    ensures Trimmed(r)
    ensures Trimmed(s) ==> r == s
    ensures |r| <= |s|
  {
    var from, to := VisibleFrom(s, 0), VisibleTo(s, |s|);
    if from >= to then "" else s[from..to]
  }

  predicate Blank(s: string) {
    TrimSpace(s) == ""
  }

  function UpperChar(c: char): char {
    if 'a' <= c <= 'z' then ((c as int) - 32) as char else c
  }

  function LowerChar(c: char): char {
    if 'A' <= c <= 'Z' then ((c as int) + 32) as char else c
  }

  function ToUpper(s: string): (r: string)
    ensures |r| == |s|
  {
    seq(|s|, i requires 0 <= i < |s| => UpperChar(s[i]))
  }

  function ToLower(s: string): (r: string)
    ensures |r| == |s|
  {
    seq(|s|, i requires 0 <= i < |s| => LowerChar(s[i]))
  }

  predicate UpperCase(s: string) {
    forall i | 0 <= i < |s| :: !('a' <= s[i] <= 'z')
  }

  /** The canonical form `strings.ToUpper(strings.TrimSpace(s))`. */
  function UpperTrim(s: string): (r: string)
    ensures Trimmed(r) && UpperCase(r)
    ensures Trimmed(s) && UpperCase(s) ==> r == s
  {
    var t := TrimSpace(s);
    var r := ToUpper(t);
    assert t != "" ==> IsSpace(r[0]) == IsSpace(t[0]) && IsSpace(r[|r| - 1]) == IsSpace(t[|t| - 1]);
    r
  }

  predicate EqualFold(a: string, b: string) {
    ToUpper(a) == ToUpper(b)
  }

  predicate HasPrefix(s: string, prefix: string) {
    prefix <= s
  }

  predicate Contains(s: string, part: string) {
    exists i | 0 <= i <= |s| :: part <= s[i..]
  }

  /** The first value that is not blank, trimmed; "" when there is none. */
  function First(a: string, b: string): string {
    if !Blank(a) then TrimSpace(a) else TrimSpace(b)
  }

  function Digits(n: nat): (r: string)
    ensures r != ""
    ensures forall i | 0 <= i < |r| :: '0' <= r[i] <= '9'
  {
    if n < 10 then ["0123456789"[n]] else Digits(n / 10) + ["0123456789"[n % 10]]
  }

  function Decimal(n: int): (r: string)
    ensures r != "" && !IsSpace(r[0]) && !IsSpace(r[|r| - 1])
  {
    if n < 0 then "-" + Digits(-n) else Digits(n)
  }

  lemma UpperTrimFixpoint(s: string)
    ensures UpperTrim(s) == s <==> Trimmed(s) && UpperCase(s)
  {
  }

  lemma {:induction false} VisibleStays(s: string, i: nat, j: nat)
    requires i < j <= |s| && !IsSpace(s[i])
    ensures VisibleTo(s, j) > i
    decreases j
  {
    if !IsSpace(s[j - 1]) {
    } else {
      VisibleStays(s, i, j - 1);
    }
  }

  /** A value with a visible first character is not blank. */
  lemma VisibleIsNotBlank(s: string)
    requires s != "" && !IsSpace(s[0])
    ensures !Blank(s)
  {
    assert VisibleFrom(s, 0) == 0;
    VisibleStays(s, 0, |s|);
  }

  // ----- what trimming, case and digits come to -----

  predicate AllSpace(s: string) {
    forall i | 0 <= i < |s| :: IsSpace(s[i])
  }

  lemma {:induction false} SpaceBefore(s: string, i: nat)
    requires i <= |s|
    ensures AllSpace(s[i..VisibleFrom(s, i)])
    decreases |s| - i
  {
    if i == |s| || !IsSpace(s[i]) {
    } else {
      SpaceBefore(s, i + 1);
      assert forall k | i < k < VisibleFrom(s, i) :: s[k] == s[i + 1..VisibleFrom(s, i)][k - i - 1];
    }
  }

  lemma {:induction false} SpaceAfter(s: string, j: nat)
    requires j <= |s|
    ensures AllSpace(s[VisibleTo(s, j)..j])
  {
    if j == 0 || !IsSpace(s[j - 1]) {
    } else {
      SpaceAfter(s, j - 1);
      assert forall k | VisibleTo(s, j) <= k < j - 1 :: s[k] == s[VisibleTo(s, j)..j - 1][k - VisibleTo(s, j)];
    }
  }

  lemma TrimmedPart(s: string)
    ensures
      var from, to := VisibleFrom(s, 0), VisibleTo(s, |s|);
      if from < |s| then from < to && TrimSpace(s) == s[from..to] else TrimSpace(s) == ""
  {
    if VisibleFrom(s, 0) < |s| {
      VisibleStays(s, VisibleFrom(s, 0), |s|);
    }
  }

  /** Trimming takes white space off both ends, and nothing else. */
  lemma TrimTakesSpaceOnly(s: string) returns (left: string, right: string)
    ensures s == left + TrimSpace(s) + right
    ensures AllSpace(left) && AllSpace(right)
  {
    var from, to := VisibleFrom(s, 0), VisibleTo(s, |s|);
    SpaceBefore(s, 0);
    SpaceAfter(s, |s|);
    TrimmedPart(s);
    if from < |s| {
      left, right := s[0..from], s[to..|s|];
    } else {
      assert s[0..|s|] == s;
      left, right := s, "";
    }
  }

  const SMALL := "abcdefghijklmnopqrstuvwxyz"
  const CAPITAL := "ABCDEFGHIJKLMNOPQRSTUVWXYZ"

  /** Changing the case of a letter gives the same letter. */
  lemma LettersKeepTheirPlace(k: nat)
    requires k < 26
    ensures UpperChar(SMALL[k]) == UpperChar(CAPITAL[k]) == CAPITAL[k]
    ensures LowerChar(CAPITAL[k]) == LowerChar(SMALL[k]) == SMALL[k]
  {
    LetterCodes(k);
  }

  lemma LetterCodes(k: nat)
    requires k < 26
    ensures SMALL[k] as int == 97 + k && CAPITAL[k] as int == 65 + k
  {
  }

  /** Other characters have no case. */
  lemma OthersHaveNoCase(c: char)
    requires c !in SMALL && c !in CAPITAL
    ensures UpperChar(c) == LowerChar(c) == c
  {
    if 'a' <= c <= 'z' {
      LetterCodes(c as int - 97);
    } else if 'A' <= c <= 'Z' {
      LetterCodes(c as int - 65);
    }
  }

  /** The canonical form has the letters of the trimmed text, in upper case. */
  lemma UpperTrimByLetter(s: string)
    ensures |UpperTrim(s)| == |TrimSpace(s)|
    ensures forall i | 0 <= i < |UpperTrim(s)| :: UpperTrim(s)[i] == UpperChar(TrimSpace(s)[i])
  {
  }

  /** The number that some decimal digits write. */
  function Written(digits: string): int {
    if digits == "" then 0 else Written(digits[..|digits| - 1]) * 10 + (digits[|digits| - 1] as int - '0' as int)
  }

  lemma {:induction false} DigitsWrite(n: nat)
    ensures Written(Digits(n)) == n
  {
    assert "0123456789"[n % 10] as int - '0' as int == n % 10;
    if n < 10 {
      assert Digits(n)[..0] == "";
    } else {
      DigitsWrite(n / 10);
      assert Digits(n)[..|Digits(n)| - 1] == Digits(n / 10);
    }
  }

  /** A number is written by its digits, after a minus sign if it is negative. */
  lemma DecimalWrites(n: int)
    ensures n >= 0 ==> Written(Decimal(n)) == n
    ensures n < 0 ==> exists digits :: Decimal(n) == "-" + digits && Written(digits) == -n
  {
    if n >= 0 {
      DigitsWrite(n);
    } else {
      DigitsWrite(-n);
      assert Decimal(n) == "-" + Digits(-n);
    }
  }
}
