/**
 * The few Python string operations the recommender relies on, restricted to ASCII:
 * `lower`/`upper`, `strip`, `split` on a set of separator characters, the substring
 * test `sub in s`, and decimal digits (`int(...)` of a digit run, `str(n)` of a
 * natural number).
 */
module Strings {

  import opened Wrappers

  // ---------------------------------------------------------------------------
  // Case folding
  // ---------------------------------------------------------------------------

  predicate IsUpperLetter(c: char) { 'A' <= c <= 'Z' }

  predicate IsLowerLetter(c: char) { 'a' <= c <= 'z' }

  function LowerChar(c: char): char {
    if IsUpperLetter(c) then (c as int - 'A' as int + 'a' as int) as char else c
  }

  function UpperChar(c: char): char {
    if IsLowerLetter(c) then (c as int - 'a' as int + 'A' as int) as char else c
  }

  /** `s.lower()` on ASCII text. */
  function Lower(s: string): string {
    seq(|s|, i requires 0 <= i < |s| => LowerChar(s[i]))
  }

  /** `s.upper()` on ASCII text. */
  function Upper(s: string): string {
    seq(|s|, i requires 0 <= i < |s| => UpperChar(s[i]))
  }

  /** Folding to lower case forgets whether the text was upper-cased first. */
  lemma LowerOfUpper(s: string)
    ensures Lower(Upper(s)) == Lower(s)
  {
    forall i | 0 <= i < |s|
      ensures Lower(Upper(s))[i] == Lower(s)[i]
    {
      var c := s[i];
      assert Upper(s)[i] == UpperChar(c);
    }
  }

  /** Folding to upper case forgets whether the text was lower-cased first. */
  lemma UpperOfLower(s: string)
    ensures Upper(Lower(s)) == Upper(s)
  {
    forall i | 0 <= i < |s|
      ensures Upper(Lower(s))[i] == Upper(s)[i]
    {
      var c := s[i];
      assert Lower(s)[i] == LowerChar(c);
    }
  }

  /** Upper-casing twice is upper-casing once. */
  lemma UpperIdempotent(s: string)
    ensures Upper(Upper(s)) == Upper(s)
  {
    forall i | 0 <= i < |s|
      ensures Upper(Upper(s))[i] == Upper(s)[i]
    {
      var c := s[i];
      assert Upper(s)[i] == UpperChar(c);
    }
  }

  // ---------------------------------------------------------------------------
  // Whitespace and strip()
  // ---------------------------------------------------------------------------

  /** The ASCII characters for which Python's `str.isspace()` holds. */
  predicate IsSpace(c: char) {
    c == ' ' || c == '\t' || c == '\n' || c == '\r' || c == '\U{0B}' || c == '\U{0C}'
    || ('\U{1C}' <= c <= '\U{1F}')
  }

  predicate AllSpace(s: string) {
    forall k :: 0 <= k < |s| ==> IsSpace(s[k])
  }

  /** Neither end of `s` is whitespace: `s.strip() == s`. */
  predicate IsStripped(s: string) {
    s == [] || (!IsSpace(s[0]) && !IsSpace(s[|s| - 1]))
  }

  /** Number of whitespace characters at the start of `s`. */
  function LeadingSpaces(s: string): (n: nat)
    ensures n <= |s|
    ensures AllSpace(s[..n])
    ensures n == |s| || !IsSpace(s[n])
  {
    if s != [] && IsSpace(s[0]) then
      var m := LeadingSpaces(s[1..]);
      assert s[..m + 1] == [s[0]] + s[1..][..m];
      m + 1
    else 0
  }

  /** Number of whitespace characters at the end of `s`. */
  function TrailingSpaces(s: string): (n: nat)
    ensures n <= |s|
    ensures AllSpace(s[|s| - n..])
    ensures n == |s| || !IsSpace(s[|s| - n - 1])
  {
    if s != [] && IsSpace(s[|s| - 1]) then
      var init := s[..|s| - 1];
      var m := TrailingSpaces(init);
      assert s[|s| - (m + 1)..] == init[|init| - m..] + [s[|s| - 1]];
      m + 1
    else 0
  }

  /**
   * `s.strip()`: the longest slice of `s` that neither starts nor ends with
   * whitespace, obtained by removing only whitespace from both ends.
   */
  function Strip(s: string): (r: string)
    ensures IsStripped(r)
    ensures exists i, j :: 0 <= i <= j <= |s| && r == s[i..j] && AllSpace(s[..i]) && AllSpace(s[j..])
    ensures forall c :: c in r ==> c in s
  {
    var i := LeadingSpaces(s);
    var t := s[i..];
    var j := |t| - TrailingSpaces(t);
    assert t[..j] == s[i..i + j];
    assert t[j..] == s[i + j..];
    assert j > 0 ==> !IsSpace(t[0]);
    t[..j]
  }

  /** `strip()` removes whitespace only: every other character of `s` is kept. */
  lemma NonSpaceKept(s: string, k: nat)
    requires k < |s| && !IsSpace(s[k])
    ensures s[k] in Strip(s)
  {
    var i := LeadingSpaces(s);
    var t := s[i..];
    var j := |t| - TrailingSpaces(t);
    assert k >= i ==> t[k - i] == s[k];
    assert t[..j][k - i] == s[k];
  }

  lemma StripOfStripped(s: string)
    requires IsStripped(s)
    ensures Strip(s) == s
  {
  }

  /** `strip()` is idempotent. */
  lemma StripIdempotent(s: string)
    ensures Strip(Strip(s)) == Strip(s)
  {
    StripOfStripped(Strip(s));
  }

  // ---------------------------------------------------------------------------
  // split()
  // ---------------------------------------------------------------------------

  /** Number of characters of `s` that belong to `seps`. */
  function CountIn(s: string, seps: set<char>): nat {
    if s == [] then 0 else (if s[0] in seps then 1 else 0) + CountIn(s[1..], seps)
  }

  predicate Avoids(s: string, seps: set<char>) {
    forall c :: c in s ==> c !in seps
  }

  /**
   * Python's `re.split("[...]", s)` (and `s.split(c)` when `seps == {c}`): the
   * pieces between separator characters, empty pieces included.
   */
  function Split(s: string, seps: set<char>): (r: seq<string>)
    ensures |r| == CountIn(s, seps) + 1
    ensures forall i :: 0 <= i < |r| ==> Avoids(r[i], seps)
  {
    if s == [] then [""]
    else
      var rest := Split(s[1..], seps);
      if s[0] in seps then [""] + rest
      else [[s[0]] + rest[0]] + rest[1..]
  }

  /** Text without a separator is a single piece. */
  lemma {:induction false} SplitWithoutSeparators(s: string, seps: set<char>)
    requires Avoids(s, seps)
    ensures Split(s, seps) == [s]
  {
    if s != [] {
      assert s[0] in s;
      assert forall c :: c in s[1..] ==> c in s;
      SplitWithoutSeparators(s[1..], seps);
      assert s == [s[0]] + s[1..];
    }
  }

  /**
   * A separator cuts the text in two: the pieces of `a + [c] + b` are those of
   * `a` followed by those of `b`. Together with `SplitWithoutSeparators` this
   * fixes `Split` on every text.
   */
  lemma {:induction false} SplitAt(a: string, c: char, b: string, seps: set<char>)
    requires c in seps
    ensures Split(a + [c] + b, seps) == Split(a, seps) + Split(b, seps)
  {
    if a == [] {
      SplitCons(c, b, seps);
      assert a + [c] + b == [c] + b;
    } else {
      SplitAt(a[1..], c, b, seps);
      SplitAtStep(a[0], a[1..] + [c] + b, a[1..], Split(b, seps), seps);
      assert a == [a[0]] + a[1..];
      assert a + [c] + b == [a[0]] + (a[1..] + [c] + b);
    }
  }

  /** The inductive step of `SplitAt`: one more character in front of both texts. */
  lemma SplitAtStep(x: char, t: string, a: string, rb: seq<string>, seps: set<char>)
    requires Split(t, seps) == Split(a, seps) + rb
    ensures Split([x] + t, seps) == Split([x] + a, seps) + rb
  {
    if x in seps {
      SplitAtStepSeparator(x, t, a, rb, seps);
    } else {
      SplitCons(x, t, seps);
      SplitCons(x, a, seps);
      ExtendFirstPiece(x, Split(a, seps), rb);
    }
  }

  /** The step of `SplitAt` when the new first character is a separator. */
  lemma SplitAtStepSeparator(x: char, t: string, a: string, rb: seq<string>, seps: set<char>)
    requires x in seps
    requires Split(t, seps) == Split(a, seps) + rb
    ensures Split([x] + t, seps) == Split([x] + a, seps) + rb
  {
    SplitCons(x, t, seps);
    SplitCons(x, a, seps);
    PrependEmptyPiece(Split(a, seps), rb);
  }

  /** An empty first piece in front of two lists of pieces. */
  lemma PrependEmptyPiece(ra: seq<string>, rb: seq<string>)
    ensures [""] + (ra + rb) == ([""] + ra) + rb
  {
  }

  /** Extending the first piece commutes with appending further pieces. */
  lemma ExtendFirstPiece(x: char, ra: seq<string>, rb: seq<string>)
    requires |ra| >= 1
    ensures [[x] + (ra + rb)[0]] + (ra + rb)[1..] == ([[x] + ra[0]] + ra[1..]) + rb
  {
    assert (ra + rb)[1..] == ra[1..] + rb;
  }

  /** The pieces of a text with one more character in front. */
  lemma SplitCons(x: char, t: string, seps: set<char>)
    ensures Split([x] + t, seps) ==
      if x in seps then [""] + Split(t, seps) else [[x] + Split(t, seps)[0]] + Split(t, seps)[1..]
  {
    assert ([x] + t)[1..] == t;
  }

  /** `c.join(pieces)`. */
  function Join(pieces: seq<string>, c: char): string
    requires |pieces| >= 1
  {
    if |pieces| == 1 then pieces[0] else pieces[0] + [c] + Join(pieces[1..], c)
  }

  /** Splitting on one separator and joining with it gives the text back. */
  lemma {:induction false} JoinSplit(s: string, c: char)
    ensures Join(Split(s, {c}), c) == s
  {
    if s != [] {
      var rest := Split(s[1..], {c});
      JoinSplit(s[1..], c);
      if s[0] == c {
        assert Split(s, {c}) == [""] + rest;
        assert ([""] + rest)[1..] == rest;
      } else {
        var r := Split(s, {c});
        assert r == [[s[0]] + rest[0]] + rest[1..];
        if |rest| == 1 {
          assert Join(r, c) == [s[0]] + rest[0];
        } else {
          assert r[1..] == rest[1..];
          assert Join(rest, c) == rest[0] + [c] + Join(rest[1..], c);
          assert Join(r, c) == ([s[0]] + rest[0]) + [c] + Join(rest[1..], c);
        }
        assert s == [s[0]] + s[1..];
      }
    }
  }

  /** `[p.strip() for p in pieces]`. */
  function StripAll(pieces: seq<string>): (r: seq<string>)
    ensures |r| == |pieces|
    ensures forall i :: 0 <= i < |pieces| ==> r[i] == Strip(pieces[i])
  {
    if pieces == [] then [] else [Strip(pieces[0])] + StripAll(pieces[1..])
  }

  /**
   * `[p.strip() for p in pieces if p.strip()]`: every piece stripped, the empty
   * ones dropped, order kept.
   */
  function StrippedNonEmpty(pieces: seq<string>): (r: seq<string>)
    ensures forall i :: 0 <= i < |r| ==> r[i] != "" && IsStripped(r[i])
    ensures forall x :: x in r <==> x in StripAll(pieces) && x != ""
  {
    if pieces == [] then []
    else
      var rest := StrippedNonEmpty(pieces[1..]);
      var p := Strip(pieces[0]);
      var r := if p != "" then [p] + rest else rest;
      assert forall x :: x in r <==> (x == p && p != "") || x in rest;
      r
  }

  /** A single piece survives, stripped, exactly when it is not blank. */
  lemma StrippedNonEmptyOne(p: string)
    ensures StrippedNonEmpty([p]) == if Strip(p) != "" then [Strip(p)] else []
  {
    assert [p][1..] == [];
  }

  /**
   * The filter keeps order and repeats: the items of two lists of pieces are
   * the items of the first followed by those of the second.
   */
  lemma {:induction false} StrippedNonEmptyAppend(a: seq<string>, b: seq<string>)
    ensures StrippedNonEmpty(a + b) == StrippedNonEmpty(a) + StrippedNonEmpty(b)
  {
    if a == [] {
      assert a + b == b;
    } else {
      assert (a + b)[0] == a[0];
      assert (a + b)[1..] == a[1..] + b;
      StrippedNonEmptyAppend(a[1..], b);
    }
  }

  /** No piece survives exactly when every stripped piece is empty. */
  lemma {:induction false} StrippedNonEmptyIsEmpty(pieces: seq<string>)
    ensures StrippedNonEmpty(pieces) == [] <==> forall x :: x in StripAll(pieces) ==> x == ""
  {
    var r := StrippedNonEmpty(pieces);
    var stripped := StripAll(pieces);
    assert r != [] ==> r[0] in stripped && r[0] != "";
    assert forall x :: x in stripped && x != "" ==> x in r;
  }

  /** Stripping adds no character, so pieces free of the separators stay free of them. */
  lemma StrippedNonEmptyAvoids(pieces: seq<string>, seps: set<char>)
    requires forall i :: 0 <= i < |pieces| ==> Avoids(pieces[i], seps)
    ensures forall x :: x in StrippedNonEmpty(pieces) ==> Avoids(x, seps)
  {
    forall x | x in StrippedNonEmpty(pieces) ensures Avoids(x, seps) {
      var j :| 0 <= j < |pieces| && StripAll(pieces)[j] == x;
      assert Avoids(pieces[j], seps);
    }
  }

  // ---------------------------------------------------------------------------
  // Substrings
  // ---------------------------------------------------------------------------

  /** `sub` occurs in `s` starting at index `i`. */
  predicate OccursAt(s: string, sub: string, i: nat) {
    i + |sub| <= |s| && s[i..i + |sub|] == sub
  }

  /** Python's `sub in s` on strings. */
  predicate Contains(s: string, sub: string) {
    exists i: nat :: i <= |s| && OccursAt(s, sub, i)
  }

  // ---------------------------------------------------------------------------
  // Decimal digits
  // ---------------------------------------------------------------------------

  predicate IsDigit(c: char) { '0' <= c <= '9' }

  predicate AllDigits(s: string) {
    forall k :: 0 <= k < |s| ==> IsDigit(s[k])
  }

  predicate NoDigits(s: string) {
    forall k :: 0 <= k < |s| ==> !IsDigit(s[k])
  }

  /** `int(ds)` for a string of decimal digits. */
  function DigitsValue(ds: string): nat
    requires AllDigits(ds)
  {
    if ds == [] then 0
    else DigitsValue(ds[..|ds| - 1]) * 10 + (ds[|ds| - 1] as int - '0' as int)
  }

  /** Length of the run of digits at the start of `s`. */
  function DigitRun(s: string): (n: nat)
    ensures n <= |s|
    ensures AllDigits(s[..n])
    ensures n == |s| || !IsDigit(s[n])
  {
    if s != [] && IsDigit(s[0]) then
      var m := DigitRun(s[1..]);
      assert s[..m + 1] == [s[0]] + s[1..][..m];
      m + 1
    else 0
  }

  /**
   * The value of the first maximal run of digits in `s`, as Python's
   * `int(re.search(r"(\d+)", s).group(1))`; None when `s` has no digit.
   */
  function FirstNumber(s: string): (r: Option<nat>)
    ensures r.None? <==> NoDigits(s)
  {
    if s == [] then None
    else if IsDigit(s[0]) then Some(DigitsValue(s[..DigitRun(s)]))
    else
      var r := FirstNumber(s[1..]);
      assert NoDigits(s[1..]) ==> NoDigits(s) by {
        if NoDigits(s[1..]) {
          forall k | 0 <= k < |s| ensures !IsDigit(s[k]) {
            if k > 0 { assert s[k] == s[1..][k - 1]; }
          }
        }
      }
      r
  }

  /** The digit run is maximal, so it is determined by where the digits stop. */
  lemma DigitRunOf(d: string, q: string)
    requires d != [] && AllDigits(d)
    requires q == [] || !IsDigit(q[0])
    ensures DigitRun(d + q) == |d| && (d + q)[..|d|] == d
  {
    var s := d + q;
    assert forall k :: 0 <= k < |d| ==> s[k] == d[k];
    assert |d| < |s| ==> s[|d|] == q[0];
    assert s[..|d|] == d;
  }

  /**
   * `re.search(r"(\d+)", p + d + q)` finds exactly the run `d` when `p` has no
   * digit and `q` does not continue the run.
   */
  lemma {:induction false} FirstNumberOf(p: string, d: string, q: string)
    requires NoDigits(p)
    requires d != [] && AllDigits(d)
    requires q == [] || !IsDigit(q[0])
    ensures FirstNumber(p + d + q) == Some(DigitsValue(d))
  {
    if p == [] {
      assert p + d + q == d + q;
      DigitRunOf(d, q);
    } else {
      assert (p + d + q)[0] == p[0];
      assert (p + d + q)[1..] == p[1..] + d + q;
      FirstNumberOf(p[1..], d, q);
    }
  }

  function DigitChar(n: nat): (c: char)
    requires n < 10
    ensures IsDigit(c) && c as int - '0' as int == n
  {
    ('0' as int + n) as char
  }

  /** `str(n)` for a natural number: its decimal digits without leading zeros. */
  function NatToString(n: nat): (s: string)
    ensures s != [] && AllDigits(s)
    ensures s[0] == '0' <==> n == 0
  {
    if n < 10 then [DigitChar(n)] else NatToString(n / 10) + [DigitChar(n % 10)]
  }

  /** Parsing the decimal text of `n` gives `n` back. */
  lemma {:induction false} NatToStringRoundTrip(n: nat)
    ensures DigitsValue(NatToString(n)) == n
  {
    if n >= 10 {
      var s := NatToString(n);
      NatToStringRoundTrip(n / 10);
      assert s[..|s| - 1] == NatToString(n / 10);
    } else {
      var s := NatToString(n);
      assert s[..0] == [];
    }
  }

  /** Distinct numbers have distinct decimal texts. */
  lemma NatToStringInjective(m: nat, n: nat)
    requires NatToString(m) == NatToString(n)
    ensures m == n
  {
    NatToStringRoundTrip(m);
    NatToStringRoundTrip(n);
  }
}
