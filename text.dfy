/**
 * Text operations the source relies on, written out with their Python meaning:
 * the substring test `pat in s`, `str.split` on a separator,
 * `str.strip()`, `str(int)` and `int(str)`.
 */
module Text {
  import opened Wrappers

  /** `s[i..i+|pat|] == pat`: `pat` occurs in `s` at position `i`. */
  predicate OccursAt(s: string, pat: string, i: int) {
    0 <= i && i + |pat| <= |s| && s[i..i + |pat|] == pat
  }

  /** The first position at which `pat` occurs in `s` (Python's `s.find(pat)`); its meaning is `FindSpec`. */
  function Find(s: string, pat: string): Option<nat>
    decreases |s|
  {
    if |s| < |pat| then None
    else if s[..|pat|] == pat then Some(0)
    else
      match Find(s[1..], pat)
      case None => None
      case Some(k) => Some(k + 1)
  }

  /** An occurrence after the first character is an occurrence in the tail. */
  lemma OccursInTail(s: string, pat: string, i: int)
    requires |s| > 0 && i > 0
    ensures OccursAt(s, pat, i) <==> OccursAt(s[1..], pat, i - 1)
  {
    if i + |pat| <= |s| {
      assert s[1..][i - 1..i - 1 + |pat|] == s[i..i + |pat|];
    }
  }

  /** `Find` returns the first occurrence, and `None` only when there is none. */
  lemma {:induction false} FindSpec(s: string, pat: string)
    ensures Find(s, pat).Some? ==>
      OccursAt(s, pat, Find(s, pat).value) && forall i :: 0 <= i < Find(s, pat).value ==> !OccursAt(s, pat, i)
    ensures Find(s, pat).None? ==> forall i :: !OccursAt(s, pat, i)
    decreases |s|
  {
    if |s| >= |pat| && s[..|pat|] != pat {
      var t := s[1..];
      FindSpec(t, pat);
      assert !OccursAt(s, pat, 0);
      forall i | i > 0 ensures OccursAt(s, pat, i) <==> OccursAt(t, pat, i - 1) {
        OccursInTail(s, pat, i);
      }
    }
  }

  /** Python's `pat in s`. */
  function Contains(s: string, pat: string): (r: bool)
    ensures r <==> exists i :: OccursAt(s, pat, i)
  {
    FindSpec(s, pat);
    Find(s, pat).Some?
  }

  /** No text occurs twice in the list. */
  predicate Distinct(s: seq<string>) {
    forall i, j :: 0 <= i < j < |s| ==> s[i] != s[j]
  }

  /** Python's `s.split(sep)`: the pieces between successive occurrences of `sep`. */
  function Split(s: string, sep: string): (r: seq<string>)
    requires |sep| > 0
    ensures |r| > 0
    ensures forall k :: 0 <= k < |r| - 1 ==> !Contains(r[k], sep)
    decreases |s|
  {
    match Find(s, sep)
    case None => [s]
    case Some(k) =>
      FindSpec(s, sep);
      assert forall i :: OccursAt(s[..k], sep, i) ==> OccursAt(s, sep, i);
      [s[..k]] + Split(s[k + |sep|..], sep)
  }

  /** A piece that does not contain the separator's first character holds no separator. */
  lemma NoSepStart(p: string, sep: string, t: string)
    requires |sep| > 0 && sep[0] !in p
    ensures Find(p + sep + t, sep) == Some(|p|)
    ensures Find(p, sep).None?
  {
    var s := p + sep + t;
    FindSpec(s, sep);
    FindSpec(p, sep);
    assert OccursAt(s, sep, |p|);
    forall i | 0 <= i < |p| ensures !OccursAt(s, sep, i) {
      assert s[i] == p[i];
    }
    forall i | 0 <= i && i + |sep| <= |p| ensures p[i..i + |sep|][0] == p[i] {
    }
  }

  /** Splitting text that starts with a separator-free piece peels that piece off. */
  lemma SplitCons(p: string, sep: string, t: string)
    requires |sep| > 0 && sep[0] !in p
    ensures Split(p + sep + t, sep) == [p] + Split(t, sep)
  {
    NoSepStart(p, sep, t);
    var s := p + sep + t;
    assert s[..|p|] == p;
    assert s[|p| + |sep|..] == t;
  }

  /** The last piece: text without the separator's first character splits into itself. */
  lemma SplitSingle(p: string, sep: string)
    requires |sep| > 0 && sep[0] !in p
    ensures Split(p, sep) == [p]
  {
    NoSepStart(p, sep, "");
  }

  /** A one-character separator at the head of `t` ends the piece `p`. */
  lemma SplitPeel(p: string, sep: string, t: string)
    requires |sep| == 1 && sep[0] !in p && |t| > 0 && t[0] == sep[0]
    ensures Split(p + t, sep) == [p] + Split(t[1..], sep)
  {
    assert t == sep + t[1..];
    assert p + t == p + sep + t[1..];
    SplitCons(p, sep, t[1..]);
  }

  /** Dropping the first character of a concatenation drops it from the first part. */
  lemma DropFirst(s: string, rest: string)
    requires |s| > 0
    ensures (s + rest)[1..] == s[1..] + rest
  {
  }

  // ---------------------------------------------------------------------------
  // str.strip()

  /** The characters Python's `str.isspace()` accepts, which `str.strip()` removes. */
  predicate IsSpace(c: char) {
    var n := c as int;
    (0x09 <= n <= 0x0D) || (0x1C <= n <= 0x20) || n == 0x85 || n == 0xA0 || n == 0x1680
    || (0x2000 <= n <= 0x200A) || n == 0x2028 || n == 0x2029 || n == 0x202F || n == 0x205F
    || n == 0x3000
  }

  function TrimStart(s: string): (r: string)
    ensures |r| <= |s|
  {
    if s == [] || !IsSpace(s[0]) then s else TrimStart(s[1..])
  }

  function TrimEnd(s: string): (r: string)
    ensures |r| <= |s|
  {
    if s == [] || !IsSpace(s[|s| - 1]) then s else TrimEnd(s[..|s| - 1])
  }

  /** Removing leading whitespace leaves a suffix. */
  lemma {:induction false} TrimStartSuffix(s: string)
    ensures TrimStart(s) == s[|s| - |TrimStart(s)|..]
  {
    if s != [] && IsSpace(s[0]) {
      TrimStartSuffix(s[1..]);
      var r := TrimStart(s[1..]);
      assert s[1..][|s| - 1 - |r|..] == s[|s| - |r|..];
    }
  }

  /** What leading-whitespace removal drops is spaces, and what it keeps starts with a non-space. */
  lemma {:induction false} TrimStartSpec(s: string)
    ensures var r := TrimStart(s);
      && (forall k :: 0 <= k < |s| - |r| ==> IsSpace(s[k]))
      && (r == "" || !IsSpace(r[0]))
  {
    if s != [] && IsSpace(s[0]) {
      TrimStartSpec(s[1..]);
      var r := TrimStart(s[1..]);
      forall k | 1 <= k < |s| - |r| ensures IsSpace(s[k]) {
        assert s[1..][k - 1] == s[k];
      }
    }
  }

  /** Removing trailing whitespace leaves a prefix. */
  lemma {:induction false} TrimEndPrefix(s: string)
    ensures TrimEnd(s) == s[..|TrimEnd(s)|]
  {
    if s != [] && IsSpace(s[|s| - 1]) {
      TrimEndPrefix(s[..|s| - 1]);
      var r := TrimEnd(s[..|s| - 1]);
      assert s[..|s| - 1][..|r|] == s[..|r|];
    }
  }

  /** What trailing-whitespace removal drops is spaces, and what it keeps ends with a non-space. */
  lemma {:induction false} TrimEndSpec(s: string)
    ensures var r := TrimEnd(s);
      && (forall k :: |r| <= k < |s| ==> IsSpace(s[k]))
      && (r == "" || !IsSpace(r[|r| - 1]))
  {
    if s != [] && IsSpace(s[|s| - 1]) {
      TrimEndSpec(s[..|s| - 1]);
      TrimEndPrefix(s[..|s| - 1]);
      var r := TrimEnd(s[..|s| - 1]);
      forall k | |r| <= k < |s| - 1 ensures IsSpace(s[k]) {
        assert s[..|s| - 1][k] == s[k];
      }
    }
  }

  /** Python's `s.strip()`. */
  function Strip(s: string): string {
    TrimEnd(TrimStart(s))
  }

  /** `s.strip()` is the slice of `s` left after removing the leading whitespace and then the trailing. */
  lemma StripIsSlice(s: string)
    ensures var i := |s| - |TrimStart(s)|; i + |Strip(s)| <= |s| && Strip(s) == s[i..i + |Strip(s)|]
  {
    var a := TrimStart(s);
    var r := TrimEnd(a);
    var i := |s| - |a|;
    TrimStartSuffix(s);
    TrimEndPrefix(a);
    assert s[i..][..|r|] == s[i..i + |r|];
  }

  /** `s.strip()` is empty exactly when `s` is whitespace only. */
  lemma StripEmptyIff(s: string)
    ensures Strip(s) == "" <==> forall k :: 0 <= k < |s| ==> IsSpace(s[k])
  {
    var a := TrimStart(s);
    TrimStartSpec(s);
    TrimStartSuffix(s);
    TrimEndSpec(a);
    if a != "" {
      assert !IsSpace(s[|s| - |a|]);
    }
  }

  /** A non-empty `s.strip()` starts and ends with a non-space character. */
  lemma StripEnds(s: string)
    ensures Strip(s) != "" ==> !IsSpace(Strip(s)[0]) && !IsSpace(Strip(s)[|Strip(s)| - 1])
  {
    var a := TrimStart(s);
    TrimStartSpec(s);
    TrimEndSpec(a);
    TrimEndPrefix(a);
  }

  /** Text without whitespace at either end is left alone by `strip()`. */
  lemma StripUnchanged(s: string)
    requires s == "" || (!IsSpace(s[0]) && !IsSpace(s[|s| - 1]))
    ensures Strip(s) == s
  {
  }

  // ---------------------------------------------------------------------------
  // str(int) and int(str)

  function DigitChar(d: nat): char
    requires d < 10
  {
    ('0' as int + d) as char
  }

  predicate IsDigit(c: char) {
    '0' <= c <= '9'
  }

  predicate AllDigits(s: string) {
    forall k :: 0 <= k < |s| ==> IsDigit(s[k])
  }

  /** Decimal digits of `n`, most significant first, with no leading zero. */
  function NatText(n: nat): (r: string)
    ensures |r| > 0 && AllDigits(r)
    ensures |r| > 1 ==> r[0] != '0'
  {
    if n < 10 then [DigitChar(n)] else NatText(n / 10) + [DigitChar(n % 10)]
  }

  /** Python's `str(i)` for an integer. */
  function IntText(i: int): string {
    if i < 0 then "-" + NatText(-i) else NatText(i)
  }

  /** The value of a string of decimal digits. */
  function DigitsValue(s: string): nat
    requires AllDigits(s)
  {
    if s == [] then 0
    else
      assert IsDigit(s[|s| - 1]);
      DigitsValue(s[..|s| - 1]) * 10 + (s[|s| - 1] as int - '0' as int)
  }

  lemma {:induction false} DigitsValueNatText(n: nat)
    ensures DigitsValue(NatText(n)) == n
  {
    if n >= 10 {
      var t := NatText(n / 10) + [DigitChar(n % 10)];
      assert t[..|t| - 1] == NatText(n / 10);
      DigitsValueNatText(n / 10);
    }
  }

  /**
   * Python's `int(text)`: surrounding whitespace, an optional sign and at
   * least one decimal digit; anything else raises `ValueError` (`None` here).
   */
  function ParseInt(text: string): (r: Option<int>)
    ensures r.Some? ==> Strip(text) != ""
  {
    var t := Strip(text);
    if t == [] then None
    else
      var neg := t[0] == '-';
      var digits := if t[0] == '-' || t[0] == '+' then t[1..] else t;
      if digits != [] && AllDigits(digits)
      then
        var v: int := if neg then 0 - DigitsValue(digits) as int else DigitsValue(digits);
        Some(v)
      else None
  }

  /** `int(str(i)) == i`. */
  lemma ParseIntText(i: int)
    ensures ParseInt(IntText(i)) == Some(i)
  {
    var s := IntText(i);
    var d := NatText(if i < 0 then -i else i);
    assert !IsSpace(s[0]) && !IsSpace(s[|s| - 1]);
    StripUnchanged(s);
    DigitsValueNatText(if i < 0 then -i else i);
    if i < 0 {
      assert s[1..] == d;
    }
  }
}
