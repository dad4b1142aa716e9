/** Trimming and decimal numbers, as Rust's `str::trim`, `u16::from_str` and `to_string` define them. */
module Text {
  import opened Prelude

  /** `char::is_whitespace`: the characters with the Unicode property White_Space. */
  predicate IsWhitespace(c: char) {
    var n := c as int;
    || 0x09 <= n <= 0x0D || n == 0x20 || n == 0x85 || n == 0xA0 || n == 0x1680
    || 0x2000 <= n <= 0x200A || n == 0x2028 || n == 0x2029 || n == 0x202F || n == 0x205F || n == 0x3000
  }

  predicate IsBlank(s: string) {
    forall k :: 0 <= k < |s| ==> IsWhitespace(s[k])
  }

  predicate IsDigit(c: char) {
    '0' <= c <= '9'
  }

  predicate AllDigits(s: string) {
    forall k :: 0 <= k < |s| ==> IsDigit(s[k])
  }

  function TrimStart(s: string): string {
    if s != [] && IsWhitespace(s[0]) then TrimStart(s[1..]) else s
  }

  function TrimEnd(s: string): string {
    if s != [] && IsWhitespace(s[|s| - 1]) then TrimEnd(s[..|s| - 1]) else s
  }

  /** `str::trim`. */
  function Trim(s: string): string {
    TrimEnd(TrimStart(s))
  }

  /** Neither begins nor ends with white space. */
  predicate IsTrimmed(s: string) {
    s == [] || (!IsWhitespace(s[0]) && !IsWhitespace(s[|s| - 1]))
  }

  lemma {:induction false} TrimStartSplits(s: string) returns (before: string)
    ensures IsBlank(before) && s == before + TrimStart(s)
    ensures TrimStart(s) != [] ==> !IsWhitespace(TrimStart(s)[0])
  {
    if s != [] && IsWhitespace(s[0]) {
      var rest := TrimStartSplits(s[1..]);
      before := [s[0]] + rest;
    } else {
      before := [];
    }
  }

  lemma {:induction false} TrimEndSplits(s: string) returns (after: string)
    ensures IsBlank(after) && s == TrimEnd(s) + after
    ensures TrimEnd(s) != [] ==> !IsWhitespace(TrimEnd(s)[|TrimEnd(s)| - 1])
  {
    if s != [] && IsWhitespace(s[|s| - 1]) {
      var rest := TrimEndSplits(s[..|s| - 1]);
      after := rest + [s[|s| - 1]];
      assert s == s[..|s| - 1] + [s[|s| - 1]];
    } else {
      after := [];
    }
  }

  /** Trimming takes white space off both ends and nothing else. */
  lemma TrimSplits(s: string) returns (before: string, after: string)
    ensures IsBlank(before) && IsBlank(after) && IsTrimmed(Trim(s))
    ensures s == before + Trim(s) + after
  {
    before := TrimStartSplits(s);
    after := TrimEndSplits(TrimStart(s));
  }

  lemma {:induction false} TrimStartPadded(before: string, s: string)
    requires IsBlank(before) && (s != [] ==> !IsWhitespace(s[0]))
    ensures TrimStart(before + s) == s
  {
    if before == [] {
      assert before + s == s;
    } else {
      assert (before + s)[1..] == before[1..] + s;
      TrimStartPadded(before[1..], s);
    }
  }

  lemma {:induction false} TrimEndPadded(s: string, after: string)
    requires IsBlank(after) && (s != [] ==> !IsWhitespace(s[|s| - 1]))
    ensures TrimEnd(s + after) == s
  {
    if after == [] {
      assert s + after == s;
    } else {
      assert (s + after)[..|s + after| - 1] == s + after[..|after| - 1];
      TrimEndPadded(s, after[..|after| - 1]);
    }
  }

  /** Padding a trimmed text with any white space and trimming it gives it back. */
  lemma TrimPadded(before: string, s: string, after: string)
    requires IsBlank(before) && IsBlank(after) && IsTrimmed(s)
    ensures Trim(before + s + after) == s
  {
    if s == [] {
      assert before + s + after == (before + after) + [];
      TrimStartPadded(before + after, []);
    } else {
      assert before + s + after == before + (s + after);
      TrimStartPadded(before, s + after);
      TrimEndPadded(s, after);
    }
  }

  /** A text trims to `s` exactly if it is `s` with white space around it. */
  lemma TrimsExactly(text: string, s: string)
    ensures Trim(text) == s
       <==> IsTrimmed(s) && exists before, after :: IsBlank(before) && IsBlank(after) && text == before + s + after
  {
    var before, after := TrimSplits(text);
    assert text == before + Trim(text) + after;
    if before, after :| IsTrimmed(s) && IsBlank(before) && IsBlank(after) && text == before + s + after {
      TrimPadded(before, s, after);
    }
  }

  // ----- decimal numbers

  function DigitValue(c: char): nat
    requires IsDigit(c)
  {
    c as int - '0' as int
  }

  /** The number that a sequence of decimal digits stands for. */
  function Value(digits: string): nat
    requires AllDigits(digits)
  {
    if digits == [] then 0 else 10 * Value(digits[..|digits| - 1]) + DigitValue(digits[|digits| - 1])
  }

  function DigitChar(d: nat): (c: char)
    requires d < 10
    ensures IsDigit(c) && DigitValue(c) == d
  {
    ('0' as int + d) as char
  }

  /** `to_string` of a number. */
  function Digits(n: nat): (s: string)
    ensures s != [] && AllDigits(s) && Value(s) == n
    ensures |s| > 1 ==> s[0] != '0'
  {
    if n < 10 then [DigitChar(n)]
    else
      var high := Digits(n / 10);
      assert (high + [DigitChar(n % 10)])[..|high|] == high;
      high + [DigitChar(n % 10)]
  }

  /** Digits read from the left into an accumulator that must never exceed `limit`. */
  function Accumulate(digits: string, acc: nat, limit: nat): Option<nat> {
    if digits == [] then Some(acc)
    else if acc * 10 > limit || !IsDigit(digits[0]) then None
    else if acc * 10 + DigitValue(digits[0]) > limit then None
    else Accumulate(digits[1..], acc * 10 + DigitValue(digits[0]), limit)
  }

  /** The value of more digits is no smaller, so an early overflow is an overflow. */
  lemma {:induction false} ValueGrows(digits: string, n: nat)
    requires AllDigits(digits) && n <= |digits|
    ensures AllDigits(digits[..n]) && Value(digits[..n]) <= Value(digits)
  {
    if n < |digits| {
      var shorter := digits[..|digits| - 1];
      ValueGrows(shorter, n);
      assert shorter[..n] == digits[..n];
    } else {
      assert digits[..n] == digits;
    }
  }

  lemma {:induction false} AccumulateFrom(digits: string, n: nat, limit: nat)
    requires n <= |digits| && AllDigits(digits[..n]) && Value(digits[..n]) <= limit
    ensures var r := Accumulate(digits[n..], Value(digits[..n]), limit);
            r == if AllDigits(digits) && Value(digits) <= limit then Some(Value(digits)) else None
    decreases |digits| - n
  {
    if n == |digits| {
      assert digits[..n] == digits;
    } else if IsDigit(digits[n]) {
      assert digits[..n + 1][..n] == digits[..n];
      assert AllDigits(digits[..n + 1]);
      assert Value(digits[..n + 1]) == 10 * Value(digits[..n]) + DigitValue(digits[n]);
      assert digits[n..][1..] == digits[n + 1..];
      if Value(digits[..n + 1]) <= limit {
        AccumulateFrom(digits, n + 1, limit);
      } else if AllDigits(digits) {
        ValueGrows(digits, n + 1);
      }
    }
  }

  /** Reading with a checked accumulator accepts exactly the digit sequences whose value is within the limit. */
  lemma AccumulatesExactly(digits: string, limit: nat)
    ensures Accumulate(digits, 0, limit)
         == if AllDigits(digits) && Value(digits) <= limit then Some(Value(digits)) else None
  {
    assert digits[..0] == [] && digits[0..] == digits;
    AccumulateFrom(digits, 0, limit);
  }
}
