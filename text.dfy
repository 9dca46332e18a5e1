/**
  The few Python string built-ins the controller relies on, written out:
  `s.split(',')`, `','.join(xs)`, `s.strip()`, `int(s)` and `str(n)`.
  Permission lists and recipient lists are comma-joined strings, and the
  timer duration is stored as text, so these carry the round trips that
  the rest of the model leans on.
*/
module Text {
  import opened Wrappers

  // ---------------------------------------------------------------------------
  // Splitting and joining on a separator character
  // ---------------------------------------------------------------------------

  /** `s.split(sep)` for a one-character separator: never empty, and every
      piece is free of the separator (an empty input gives `[""]`). */
  function Split(s: string, sep: char): (pieces: seq<string>)
    ensures |pieces| >= 1
    ensures forall i :: 0 <= i < |pieces| ==> sep !in pieces[i]
    decreases |s|
  {
    if s == [] then [""]
    else if s[0] == sep then [""] + Split(s[1..], sep)
    else
      var rest := Split(s[1..], sep);
      [[s[0]] + rest[0]] + rest[1..]
  }

  /** `sep.join(xs)`. */
  function Join(xs: seq<string>, sep: char): string
    decreases |xs|
  {
    if xs == [] then ""
    else if |xs| == 1 then xs[0]
    else xs[0] + [sep] + Join(xs[1..], sep)
  }

  /** Number of occurrences of `c` in `s`. */
  function Occurrences(s: string, c: char): nat
    decreases |s|
  {
    if s == [] then 0 else (if s[0] == c then 1 else 0) + Occurrences(s[1..], c)
  }

  /** Splitting yields one piece more than there are separators. */
  lemma {:induction false} SplitLength(s: string, sep: char)
    ensures |Split(s, sep)| == Occurrences(s, sep) + 1
    decreases |s|
  {
    if s != [] {
      SplitLength(s[1..], sep);
    }
  }

  /** Joining the pieces of a split gives the original string back. */
  lemma {:induction false} JoinSplit(s: string, sep: char)
    ensures Join(Split(s, sep), sep) == s
    decreases |s|
  {
    if s != [] {
      var rest := Split(s[1..], sep);
      JoinSplit(s[1..], sep);
      if s[0] == sep {
        assert Split(s, sep) == [""] + rest;
        assert ([""] + rest)[1..] == rest;
      } else {
        var pieces := Split(s, sep);
        assert pieces == [[s[0]] + rest[0]] + rest[1..];
        if |rest| == 1 {
          assert pieces == [[s[0]] + rest[0]];
        } else {
          assert pieces[1..] == rest[1..];
          assert Join(rest, sep) == rest[0] + [sep] + Join(rest[1..], sep);
        }
      }
    }
  }

  /** A string without the separator splits into itself alone. */
  lemma {:induction false} SplitWithoutSeparator(a: string, sep: char)
    requires sep !in a
    ensures Split(a, sep) == [a]
    decreases |a|
  {
    if a != [] {
      SplitWithoutSeparator(a[1..], sep);
      assert [a[0]] + a[1..] == a;
    }
  }

  /** Splitting `a + sep + b` peels `a` off as the first piece. */
  lemma {:induction false} SplitAtSeparator(a: string, b: string, sep: char)
    requires sep !in a
    ensures Split(a + [sep] + b, sep) == [a] + Split(b, sep)
    decreases |a|
  {
    var s := a + [sep] + b;
    if a == [] {
      assert s[1..] == b;
    } else {
      assert s[1..] == a[1..] + [sep] + b;
      SplitAtSeparator(a[1..], b, sep);
      assert [a[0]] + a[1..] == a;
    }
  }

  /** Splitting a joined, non-empty list whose items are free of the
      separator gives the list back. */
  lemma {:induction false} SplitJoin(xs: seq<string>, sep: char)
    requires xs != []
    requires forall i :: 0 <= i < |xs| ==> sep !in xs[i]
    ensures Split(Join(xs, sep), sep) == xs
    decreases |xs|
  {
    if |xs| == 1 {
      SplitWithoutSeparator(xs[0], sep);
    } else {
      SplitJoin(xs[1..], sep);
      SplitAtSeparator(xs[0], Join(xs[1..], sep), sep);
      assert [xs[0]] + xs[1..] == xs;
    }
  }

  // ---------------------------------------------------------------------------
  // Whitespace stripping
  // ---------------------------------------------------------------------------

  /** The characters Python's `str.strip()` removes (its `isspace` set). */
  predicate IsSpace(c: char) {
    var n := c as int;
    (9 <= n <= 13) || (28 <= n <= 32) || n == 0x85 || n == 0xA0 || n == 0x1680 ||
    (0x2000 <= n <= 0x200A) || n == 0x2028 || n == 0x2029 || n == 0x202F ||
    n == 0x205F || n == 0x3000
  }

  /** Which whitespace is skipped at the two ends: `str.strip()` removes
      every `isspace` character, while `int()` skips the same set except the
      four information separators U+001C..U+001F, which make it fail. */
  datatype Trimming = ForStrip | ForInt

  predicate Skips(how: Trimming, c: char) {
    IsSpace(c) && (how == ForStrip || !IsInfoSeparator(c))
  }

  /** U+001C..U+001F: whitespace for `str.strip()`, but not for `int()`. */
  predicate IsInfoSeparator(c: char) {
    0x1C <= c as int <= 0x1F
  }

  /** `s.lstrip()`: the suffix left after removing leading whitespace. */
  function TrimStart(s: string, how: Trimming): string
    decreases |s|
  {
    if s != [] && Skips(how, s[0]) then TrimStart(s[1..], how) else s
  }

  /** What `lstrip` leaves is a suffix, what it removed is whitespace, and
      the suffix does not start with whitespace. */
  lemma {:induction false} TrimStartShape(s: string, how: Trimming)
    ensures var r := TrimStart(s, how);
      && |r| <= |s| && r == s[|s| - |r|..]
      && (forall k :: 0 <= k < |s| - |r| ==> Skips(how, s[k]))
      && (r == [] || !Skips(how, r[0]))
    decreases |s|
  {
    if s != [] && Skips(how, s[0]) {
      TrimStartShape(s[1..], how);
      var r := TrimStart(s[1..], how);
      assert s[1..][|s| - 1 - |r|..] == s[|s| - |r|..];
      forall k | 0 <= k < |s| - |r| ensures Skips(how, s[k]) {
        if k > 0 {
          assert s[k] == s[1..][k - 1];
        }
      }
    }
  }

  /** `s.rstrip()`: the prefix left after removing trailing whitespace. */
  function TrimEnd(s: string, how: Trimming): string
    decreases |s|
  {
    if s != [] && Skips(how, s[|s| - 1]) then TrimEnd(s[..|s| - 1], how) else s
  }

  /** What `rstrip` leaves is a prefix, what it removed is whitespace, and
      the prefix does not end with whitespace. */
  lemma {:induction false} TrimEndShape(s: string, how: Trimming)
    ensures var r := TrimEnd(s, how);
      && |r| <= |s| && r == s[..|r|]
      && (forall k :: |r| <= k < |s| ==> Skips(how, s[k]))
      && (r == [] || !Skips(how, r[|r| - 1]))
    decreases |s|
  {
    if s != [] && Skips(how, s[|s| - 1]) {
      var init := s[..|s| - 1];
      TrimEndShape(init, how);
      var r := TrimEnd(init, how);
      assert init[..|r|] == s[..|r|];
      forall k | |r| <= k < |s| ensures Skips(how, s[k]) {
        if k < |s| - 1 {
          assert s[k] == init[k];
        }
      }
    }
  }

  /** Whitespace removed from both ends. */
  function Trim(s: string, how: Trimming): string {
    TrimEnd(TrimStart(s, how), how)
  }

  /** `s.strip()`. */
  function Strip(s: string): string {
    Trim(s, ForStrip)
  }

  /** The result of `strip` neither starts nor ends with whitespace. */
  lemma StripEnds(s: string)
    ensures var r := Strip(s); r == [] || (!IsSpace(r[0]) && !IsSpace(r[|r| - 1]))
  {
    var t := TrimStart(s, ForStrip);
    TrimStartShape(s, ForStrip);
    TrimEndShape(t, ForStrip);
    var r := TrimEnd(t, ForStrip);
    assert r != [] ==> r[0] == t[0];
  }

  /** What trimming removes is whitespace only, from the two ends: the
      result is the slice of `s` that starts after the leading whitespace. */
  lemma TrimShape(s: string, how: Trimming)
    ensures |TrimStart(s, how)| <= |s|
    ensures var r := Trim(s, how); var i := |s| - |TrimStart(s, how)|;
      && 0 <= i && i + |r| <= |s| && r == s[i..i + |r|]
      && (forall k :: 0 <= k < i ==> Skips(how, s[k]))
      && (forall k :: i + |r| <= k < |s| ==> Skips(how, s[k]))
  {
    var t := TrimStart(s, how);
    TrimStartShape(s, how);
    var r := TrimEnd(t, how);
    TrimEndShape(t, how);
    var i := |s| - |t|;
    assert t == s[i..];
    assert r == t[..|r|];
    assert r == s[i..i + |r|];
    forall k | i + |r| <= k < |s| ensures Skips(how, s[k]) {
      assert s[k] == t[k - i];
    }
  }

  /** A string that neither starts nor ends with whitespace is left as it is. */
  lemma TrimUntouched(s: string, how: Trimming)
    requires s != [] && !Skips(how, s[0]) && !Skips(how, s[|s| - 1])
    ensures Trim(s, how) == s
  {
    var t := TrimStart(s, how);
    assert t == s;
    var r := TrimEnd(t, how);
    assert r == t;
  }

  // ---------------------------------------------------------------------------
  // Decimal integers: int(s) and str(n)
  // ---------------------------------------------------------------------------

  predicate IsDigit(c: char) { '0' <= c <= '9' }

  function DigitValue(c: char): (d: nat)
    requires IsDigit(c)
    ensures d < 10
  {
    (c as int) - ('0' as int)
  }

  /** A non-empty run of decimal digits. */
  predicate IsDigits(s: string) {
    s != [] && forall k :: 0 <= k < |s| ==> IsDigit(s[k])
  }

  /** The value of a run of decimal digits, most significant first. */
  function DigitsValue(s: string): nat
    requires forall k :: 0 <= k < |s| ==> IsDigit(s[k])
    decreases |s|
  {
    if s == [] then 0
    else DigitsValue(s[..|s| - 1]) * 10 + DigitValue(s[|s| - 1])
  }

  /** `int(s)` on text: surrounding whitespace (the `ForInt` set) is
      ignored, then one optional sign and decimal digits; anything else is
      the `ValueError` (None). */
  function ParseInt(s: string): Option<int> {
    var t := Trim(s, ForInt);
    if t != [] && (t[0] == '-' || t[0] == '+') then
      if IsDigits(t[1..]) then
        var magnitude: int := DigitsValue(t[1..]);
        Some(if t[0] == '-' then -magnitude else magnitude)
      else None
    else if IsDigits(t) then Some(DigitsValue(t))
    else None
  }

  /** A text `int()` accepts holds at least one digit. */
  lemma ParsedTextHasDigit(s: string)
    requires ParseInt(s).Some?
    ensures exists k :: 0 <= k < |s| && IsDigit(s[k])
  {
    TrimShape(s, ForInt);
    var t := Trim(s, ForInt);
    var i := |s| - |TrimStart(s, ForInt)|;
    var j := if t[0] == '-' || t[0] == '+' then 1 else 0;
    assert IsDigit(t[j]) by {
      if j == 1 {
        assert t[1..][0] == t[1];
      }
    }
    assert s[i + j] == t[j];
  }

  /** `int()` does not skip U+001C..U+001F although `strip()` does: a text
      that starts or ends with one of them is rejected. */
  lemma ParseIntRejectsSeparator(s: string)
    requires s != [] && (IsInfoSeparator(s[0]) || IsInfoSeparator(s[|s| - 1]))
    ensures ParseInt(s) == None
  {
    TrimShape(s, ForInt);
    var t := Trim(s, ForInt);
    var i := |s| - |TrimStart(s, ForInt)|;
    if IsInfoSeparator(s[0]) {
      assert i == 0;
      assert t != [] && t[0] == s[0];
    } else {
      assert i + |t| == |s|;
      assert t != [] && t[|t| - 1] == s[|s| - 1];
      if t[0] == '-' || t[0] == '+' {
        assert !IsDigit(t[1..][|t| - 2]);
      }
    }
  }

  function DigitChar(d: nat): char
    requires d < 10
  {
    (('0' as int) + d) as char
  }

  /** `str(n)` for a natural number. */
  function ShowNat(n: nat): (s: string)
    decreases n
  {
    if n < 10 then [DigitChar(n)] else ShowNat(n / 10) + [DigitChar(n % 10)]
  }

  /** `str(n)`. */
  function ShowInt(n: int): string {
    if n < 0 then "-" + ShowNat(-n) else ShowNat(n)
  }

  lemma {:induction false} ShowNatDigits(n: nat)
    ensures IsDigits(ShowNat(n)) && DigitsValue(ShowNat(n)) == n
    decreases n
  {
    if n >= 10 {
      ShowNatDigits(n / 10);
      var p := ShowNat(n / 10);
      var s := p + [DigitChar(n % 10)];
      assert s[..|s| - 1] == p;
    }
  }

  /** Reading back what `str(n)` wrote gives `n`. */
  lemma ParseShow(n: int)
    ensures ParseInt(ShowInt(n)) == Some(n)
  {
    var s := ShowInt(n);
    if n < 0 {
      var digits := ShowNat(-n);
      ShowNatDigits(-n);
      assert s == ['-'] + digits;
      assert s[1..] == digits;
      assert !IsSpace(s[|s| - 1]) by { assert s[|s| - 1] == digits[|digits| - 1]; }
      TrimUntouched(s, ForInt);
    } else {
      ShowNatDigits(n);
      assert !IsSpace(s[0]) && !IsSpace(s[|s| - 1]);
      TrimUntouched(s, ForInt);
      assert !(s[0] == '-' || s[0] == '+');
    }
  }
}
