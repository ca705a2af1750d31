/** The few text operations of Rust's standard library that the listing
    parser and the request serialiser rely on: decimal printing and parsing
    of `usize`, `str::split` and `[String]::join`. */
module Strings {
  import opened Results

  predicate IsDigit(c: char) { '0' <= c <= '9' }

  predicate AllDigits(s: string) { forall i :: 0 <= i < |s| ==> IsDigit(s[i]) }

  function DigitChar(d: nat): (c: char)
    requires d < 10
    ensures IsDigit(c) && c as int - '0' as int == d
  {
    ('0' as int + d) as char
  }

  /** The value of a run of decimal digits, most significant first. */
  function DigitsValue(s: string): nat
    requires AllDigits(s)
  {
    if |s| == 0 then 0 else 10 * DigitsValue(s[..|s| - 1]) + (s[|s| - 1] as int - '0' as int)
  }

  /** The text `usize::to_string` writes: digits only, no sign, and a
      leading zero only for zero itself. Reading it back gives `n`. */
  function Decimal(n: nat): (s: string)
    ensures 1 <= |s| && AllDigits(s)
    ensures s[0] == '0' <==> n == 0
    ensures DigitsValue(s) == n
    decreases n
  {
    if n < 10 then [DigitChar(n)]
    else
      var high := Decimal(n / 10);
      var s := high + [DigitChar(n % 10)];
      assert s[..|s| - 1] == high;
      s
  }

  /** The largest `usize` on a 64-bit target. */
  const UsizeMax: nat := 0xFFFF_FFFF_FFFF_FFFF

  /** `str::parse::<usize>`: an optional `+`, then at least one decimal
      digit, and a value that fits in a `usize`; anything else is an error. */
  function ParseUsize(s: string): (r: Option<nat>)
    ensures r.Some? ==> r.value <= UsizeMax
    ensures r.Some? ==> |s| > 0 && (IsDigit(s[0]) || s[0] == '+')
    ensures AllDigits(s) && 0 < |s| && DigitsValue(s) <= UsizeMax ==> r == Some(DigitsValue(s))
    ensures AllDigits(s) && DigitsValue(s) > UsizeMax ==> r.None?
    ensures (exists i :: 1 <= i < |s| && !IsDigit(s[i])) ==> r.None?
    ensures |s| > 0 && s[0] == '+' ==> r == (if |s| > 1 && s[1] != '+' then ParseUsize(s[1..]) else None)
    decreases |s|
  {
    var digits := if |s| > 0 && s[0] == '+' then s[1..] else s;
    if |digits| > 0 && AllDigits(digits) && DigitsValue(digits) <= UsizeMax
    then Some(DigitsValue(digits))
    else None
  }

  /** Printing a `usize` and parsing it back is the identity. */
  lemma DecimalRoundTrip(n: nat)
    requires n <= UsizeMax
    ensures ParseUsize(Decimal(n)) == Some(n)
  {
  }

  /** `parts.join(sep)`: the parts in order with `sep` between them, so
      the text starts with the first part. */
  function Join(parts: seq<string>, sep: string): string
  {
    if |parts| == 0 then ""
    else if |parts| == 1 then parts[0]
    else parts[0] + sep + Join(parts[1..], sep)
  }

  /** `t` occurs in `s` at position `j`. */
  predicate OccursAt(s: string, t: string, j: nat)
  {
    j + |t| <= |s| && s[j..j + |t|] == t
  }

  predicate Contains(s: string, t: string)
  {
    exists j: nat :: j <= |s| && OccursAt(s, t, j)
  }

  /** `s.split(sep)` for a non-empty pattern: the pieces between the
      leftmost non-overlapping occurrences of `sep`, always at least one.
      Joining the pieces with `sep` gives back `s`; for a one-character
      pattern no piece contains that character, and `SplitPiecesFree` shows
      that no piece contains `sep` for any pattern. */
  function Split(s: string, sep: string): (parts: seq<string>)
    requires |sep| > 0
    ensures |parts| >= 1
    ensures Join(parts, sep) == s
    ensures |sep| == 1 ==> forall i :: 0 <= i < |parts| ==> sep[0] !in parts[i]
    decreases |s|
  {
    if |s| < |sep| then [s]
    else if s[..|sep|] == sep then
      var rest := Split(s[|sep|..], sep);
      assert s == sep + s[|sep|..];
      [""] + rest
    else
      var rest := Split(s[1..], sep);
      assert s == [s[0]] + s[1..];
      [[s[0]] + rest[0]] + rest[1..]
  }

  /** No piece of a split contains the pattern. */
  lemma {:induction false} SplitPiecesFree(s: string, sep: string)
    requires |sep| > 0
    ensures forall i :: 0 <= i < |Split(s, sep)| ==> !Contains(Split(s, sep)[i], sep)
    decreases |s|
  {
    if |s| < |sep| {
      assert Split(s, sep) == [s];
      forall j: nat | j <= |s| ensures !OccursAt(s, sep, j) { }
    } else if s[..|sep|] == sep {
      SplitPiecesFree(s[|sep|..], sep);
      assert Split(s, sep) == [""] + Split(s[|sep|..], sep);
      forall j: nat ensures !OccursAt("", sep, j) { }
    } else {
      var rest := Split(s[1..], sep);
      SplitPiecesFree(s[1..], sep);
      var first := [s[0]] + rest[0];
      assert Split(s, sep) == [first] + rest[1..];
      assert rest[0] <= s[1..];
      assert first <= s;
      assert !Contains(first, sep) by {
        forall j: nat | j <= |first| && OccursAt(first, sep, j)
          ensures false
        {
          if j > 0 {
            assert rest[0][j - 1..j - 1 + |sep|] == first[j..j + |sep|];
            assert OccursAt(rest[0], sep, j - 1);
          }
        }
      }
    }
  }

  /** A prefix free of the pattern's first character is glued onto the
      first piece. */
  lemma {:induction false} SplitPrefix(x: string, t: string, sep: string)
    requires |sep| > 0 && sep[0] !in x
    ensures Split(x + t, sep) == [x + Split(t, sep)[0]] + Split(t, sep)[1..]
    decreases |x|
  {
    if |x| == 0 {
      var parts := Split(t, sep);
      assert x + t == t && x + parts[0] == parts[0];
      assert [parts[0]] + parts[1..] == parts;
    } else {
      var s := x + t;
      assert s[0] == x[0];
      assert s[1..] == x[1..] + t;
      SplitPrefix(x[1..], t, sep);
      assert [x[0]] + (x[1..] + Split(t, sep)[0]) == x + Split(t, sep)[0];
    }
  }

  /** Splitting what `join` produced recovers the parts, provided no part
      contains the pattern's first character. */
  lemma {:induction false} SplitJoin(parts: seq<string>, sep: string)
    requires |sep| > 0 && |parts| >= 1
    requires forall i :: 0 <= i < |parts| ==> sep[0] !in parts[i]
    ensures Split(Join(parts, sep), sep) == parts
    decreases |parts|
  {
    if |parts| == 1 {
      SplitPrefix(parts[0], "", sep);
      assert parts[0] + "" == parts[0];
    } else {
      var rest := Join(parts[1..], sep);
      SplitJoin(parts[1..], sep);
      var t := sep + rest;
      assert t[..|sep|] == sep;
      assert t[|sep|..] == rest;
      assert Split(t, sep) == [""] + parts[1..];
      SplitPrefix(parts[0], t, sep);
      assert parts[0] + sep + rest == parts[0] + t;
      assert parts[0] + "" == parts[0];
    }
  }
}
