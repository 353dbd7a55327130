/**
 The C library text routines that the repository leans on: splitting at dots with `strtok`,
 reading a decimal number with `strtol`, printing one with `%d`, and the narrowing of a
 64-bit `long` to a 32-bit `int`.
 */
module CText {

  // ---------------------------------------------------------------------------
  // strtok(s, ".")

  /** Number of leading characters before the first dot. */
  function WordLength(s: string): (n: nat)
    ensures n <= |s|
    ensures forall i :: 0 <= i < n ==> s[i] != '.'
    ensures n < |s| ==> s[n] == '.'
  {
    if s == "" || s[0] == '.' then 0 else 1 + WordLength(s[1..])
  }

  /** The maximal dot-free pieces of a string; empty pieces do not exist. */
  function Tokens(s: string): seq<string> {
    if s == "" then []
    else if s[0] == '.' then Tokens(s[1..])
    else
      var n := WordLength(s);
      [s[..n]] + Tokens(s[n..])
  }

  lemma {:induction false} WordLengthIs(s: string, n: nat)
    requires n <= |s| && (n < |s| ==> s[n] == '.')
    requires forall i :: 0 <= i < n ==> s[i] != '.'
    ensures WordLength(s) == n
  {
    if n > 0 {
      WordLengthIs(s[1..], n - 1);
    }
  }

  /** The first piece, and the rest. */
  lemma FirstToken(s: string, n: nat)
    requires 0 < n <= |s| && (n < |s| ==> s[n] == '.')
    requires forall i :: 0 <= i < n ==> s[i] != '.'
    ensures Tokens(s) == [s[..n]] + Tokens(s[n..])
  {
    WordLengthIs(s, n);
  }

  lemma DotSkipped(s: string)
    requires s != "" && s[0] == '.'
    ensures Tokens(s) == Tokens(s[1..])
  {
  }

  /** Splitting distributes over a dot. */
  lemma {:induction false} TokensJoin(p: string, q: string)
    ensures Tokens(p + "." + q) == Tokens(p) + Tokens(q)
    decreases |p|
  {
    hide Tokens;
    var s := p + "." + q;
    if p == "" {
      NoTokens();
      DotSkipped(s);
      assert s[1..] == q;
      assert [] + Tokens(q) == Tokens(q);
    } else if p[0] == '.' {
      DotSkipped(s);
      DotSkipped(p);
      assert s[1..] == p[1..] + "." + q;
      TokensJoin(p[1..], q);
    } else {
      var n := WordLength(p);
      FirstToken(p, n);
      FirstToken(s, n);
      assert s[..n] == p[..n];
      assert s[n..] == p[n..] + "." + q;
      TokensJoin(p[n..], q);
      assert [p[..n]] + (Tokens(p[n..]) + Tokens(q)) == ([p[..n]] + Tokens(p[n..])) + Tokens(q);
    }
  }

  lemma TokensOfWord(w: string)
    requires w != "" && '.' !in w
    ensures Tokens(w) == [w]
  {
    FirstToken(w, |w|);
    assert w[..|w|] == w;
    assert w[|w|..] == "";
  }

  /** One call of `strtok_r`: skip dots, take the word, step over the dot that ended it. */
  method NextToken(s: string, from: nat) returns (found: bool, token: string, next: nat)
    requires from <= |s|
    ensures from <= next <= |s|
    ensures !found ==> Tokens(s[from..]) == [] && next == |s|
    ensures found ==> Tokens(s[from..]) == [token] + Tokens(s[next..]) && next > from
  {
    hide Tokens;
    var start := from;
    while start < |s| && s[start] == '.'
      invariant from <= start <= |s|
      invariant Tokens(s[start..]) == Tokens(s[from..])
    {
      DotSkipped(s[start..]);
      assert s[start..][1..] == s[start + 1..];
      start := start + 1;
    }
    if start == |s| {
      assert s[start..] == "";
      NoTokens();
      return false, "", |s|;
    }
    var end := start + 1;
    while end < |s| && s[end] != '.'
      invariant start < end <= |s|
      invariant forall i :: start <= i < end ==> s[i] != '.'
    {
      end := end + 1;
    }
    token := s[start..end];
    FirstToken(s[start..], end - start);
    assert s[start..][..end - start] == token;
    assert s[start..][end - start..] == s[end..];
    next := end;
    if end < |s| {
      DotSkipped(s[end..]);
      assert s[end..][1..] == s[end + 1..];
      next := end + 1;
    }
    found := true;
  }

  lemma NoTokens()
    ensures Tokens("") == []
  {
  }

  // ---------------------------------------------------------------------------
  // strtol(s, &end, 10) and %d

  const INT_MAX := 0x7FFF_FFFF
  const INT_MIN := -0x8000_0000
  const LONG_MAX := 0x7FFF_FFFF_FFFF_FFFF
  const LONG_MIN := -0x8000_0000_0000_0000

  predicate IsSpace(c: char) {
    c == ' ' || '\t' <= c <= '\r'
  }

  predicate IsDigit(c: char) {
    '0' <= c <= '9'
  }

  function DigitValue(c: char): int {
    c as int - '0' as int
  }

  function SpaceLength(s: string): (n: nat)
    ensures n <= |s|
  {
    if s == "" || !IsSpace(s[0]) then 0 else 1 + SpaceLength(s[1..])
  }

  function DigitLength(s: string): (n: nat)
    ensures n <= |s|
  {
    if s == "" || !IsDigit(s[0]) then 0 else 1 + DigitLength(s[1..])
  }

  /** Value of a string of digits, most significant first. */
  function DigitsValue(s: string): int {
    if s == "" then 0 else 10 * DigitsValue(s[..|s| - 1]) + DigitValue(s[|s| - 1])
  }

  function Clamp(v: int): int {
    if v > LONG_MAX then LONG_MAX else if v < LONG_MIN then LONG_MIN else v
  }

  datatype Parsed = Parsed(value: int, end: nat)

  /** `end` is the index `strtol` stores: past the digits, or 0 when there are none. */
  function Strtol(s: string): Parsed {
    var k := SpaceLength(s);
    var signed := k < |s| && (s[k] == '-' || s[k] == '+');
    var start := if signed then k + 1 else k;
    var n := DigitLength(s[start..]);
    if n == 0 then Parsed(0, 0)
    else
      var v := DigitsValue(s[start..][..n]);
      Parsed(Clamp(if signed && s[k] == '-' then -v else v), start + n)
  }

  /** `(int)value`: the low 32 bits, as a signed number. */
  function ToInt(v: int): int {
    (v - INT_MIN) % 0x1_0000_0000 + INT_MIN
  }

  function Decimal(n: nat): (s: string)
    ensures s != "" && forall i :: 0 <= i < |s| ==> IsDigit(s[i])
  {
    if n < 10 then [('0' as int + n) as char]
    else Decimal(n / 10) + [('0' as int + n % 10) as char]
  }

  function PrintInt(v: int): string {
    if v < 0 then "-" + Decimal(-v) else Decimal(v)
  }

  lemma {:induction false} AllDigits(s: string)
    requires forall i :: 0 <= i < |s| ==> IsDigit(s[i])
    ensures DigitLength(s) == |s|
  {
    if s != "" {
      AllDigits(s[1..]);
    }
  }

  lemma {:induction false} DecimalValue(n: nat)
    ensures DigitsValue(Decimal(n)) == n
  {
    if n < 10 {
      assert Decimal(n)[..0] == "";
    } else {
      DecimalValue(n / 10);
      var s := Decimal(n);
      assert s[..|s| - 1] == Decimal(n / 10);
      assert DigitValue(s[|s| - 1]) == n % 10;
    }
  }

  /** Reading back a printed number consumes it whole and gives the number, clamped to `long`. */
  lemma StrtolOfPrinted(v: int)
    ensures Strtol(PrintInt(v)) == Parsed(Clamp(v), |PrintInt(v)|)
  {
    var s := PrintInt(v);
    var digits := Decimal(if v < 0 then -v else v);
    AllDigits(digits);
    DecimalValue(if v < 0 then -v else v);
    assert IsDigit(digits[0]);
    assert SpaceLength(s) == 0;
    if v < 0 {
      assert s[1..] == digits;
    } else {
      assert s[0..] == digits;
    }
    assert digits[..|digits|] == digits;
  }

  lemma PrintedIsWord(v: int)
    ensures PrintInt(v) != "" && '.' !in PrintInt(v)
  {
    var digits := Decimal(if v < 0 then -v else v);
    assert forall i :: 0 <= i < |digits| ==> IsDigit(digits[i]);
  }

  lemma {:induction false} SpaceLengthIs(s: string, k: nat)
    requires k <= |s| && (forall i :: 0 <= i < k ==> IsSpace(s[i])) && (k < |s| ==> !IsSpace(s[k]))
    ensures SpaceLength(s) == k
  {
    if k > 0 {
      SpaceLengthIs(s[1..], k - 1);
    }
  }

  lemma {:induction false} DigitLengthIs(s: string, k: nat)
    requires k <= |s| && (forall i :: 0 <= i < k ==> IsDigit(s[i])) && (k < |s| ==> !IsDigit(s[k]))
    ensures DigitLength(s) == k
  {
    if k > 0 {
      DigitLengthIs(s[1..], k - 1);
    }
  }

  /** Blanks, an optional sign, digits: the signed value of the digits, up to the first other character. */
  lemma StrtolReads(blanks: string, sign: string, digits: string, rest: string)
    requires (forall i :: 0 <= i < |blanks| ==> IsSpace(blanks[i])) && sign in {"", "+", "-"}
    requires digits != "" && forall i :: 0 <= i < |digits| ==> IsDigit(digits[i])
    requires rest == "" || !IsDigit(rest[0])
    ensures Strtol(blanks + sign + digits + rest) ==
            Parsed(Clamp(if sign == "-" then -DigitsValue(digits) else DigitsValue(digits)),
                   |blanks| + |sign| + |digits|)
  {
    hide SpaceLength, DigitLength, DigitsValue, Clamp, Strtol;
    var head, tail := blanks + sign, digits + rest;
    assert blanks + sign + digits + rest == head + tail;
    assert tail[0] == digits[0];
    DigitLengthIs(tail, |digits|);
    HeadIs(blanks, sign, tail);
    StrtolParts(head + tail, |blanks|, |head|, tail, |digits|);
    assert tail[..|digits|] == digits;
  }

  lemma HeadIs(blanks: string, sign: string, tail: string)
    requires (forall i :: 0 <= i < |blanks| ==> IsSpace(blanks[i])) && sign in {"", "+", "-"}
    requires tail != "" && IsDigit(tail[0])
    ensures var s := blanks + sign + tail;
            && SpaceLength(s) == |blanks|
            && s[|blanks|] == (if sign == "" then tail[0] else sign[0])
            && s[|blanks + sign|..] == tail
  {
    hide SpaceLength;
    var s := blanks + sign + tail;
    assert forall i :: 0 <= i < |blanks| ==> s[i] == blanks[i];
    SpaceLengthIs(s, |blanks|);
  }

  lemma StrtolParts(s: string, k: nat, start: nat, tail: string, n: nat)
    requires SpaceLength(s) == k < |s| && start <= |s| && s[start..] == tail && DigitLength(tail) == n > 0
    requires start == if s[k] == '-' || s[k] == '+' then k + 1 else k
    ensures Strtol(s) ==
            Parsed(Clamp(if s[k] == '-' then -DigitsValue(tail[..n]) else DigitsValue(tail[..n])), start + n)
  {
    hide SpaceLength, DigitLength, DigitsValue, Clamp;
  }

  /** Without a digit after blanks and an optional sign nothing is consumed. */
  lemma StrtolReadsNothing(blanks: string, sign: string, rest: string)
    requires (forall i :: 0 <= i < |blanks| ==> IsSpace(blanks[i])) && sign in {"", "+", "-"}
    requires rest == "" || !IsDigit(rest[0])
    requires sign == "" && rest != "" ==> !IsSpace(rest[0]) && rest[0] != '+' && rest[0] != '-'
    ensures Strtol(blanks + sign + rest) == Parsed(0, 0)
  {
    var s := blanks + sign + rest;
    var k, start := |blanks|, |blanks| + |sign|;
    assert forall i :: 0 <= i < k ==> s[i] == blanks[i];
    assert k < |s| ==> s[k] == (if sign == "" then rest[0] else sign[0]);
    SpaceLengthIs(s, k);
    assert s[start..] == rest;
    DigitLengthIs(rest, 0);
  }

  /** A printed number is its digits without leading zeros, after a minus sign if it is negative. */
  lemma {:induction false} DecimalForm(n: nat)
    ensures DigitsValue(Decimal(n)) == n
    ensures n == 0 ==> Decimal(n) == "0"
    ensures n > 0 ==> Decimal(n)[0] != '0'
  {
    DecimalValue(n);
    if n >= 10 {
      DecimalForm(n / 10);
    }
  }

  /** The conversion to `int` keeps the number modulo 2^32. */
  lemma ToIntIs(v: int)
    ensures INT_MIN <= ToInt(v) <= INT_MAX && (v - ToInt(v)) % 0x1_0000_0000 == 0
  {
    var q := (v - INT_MIN) / 0x1_0000_0000;
    assert v - ToInt(v) == q * 0x1_0000_0000;
  }

  lemma ToIntOfInt(v: int)
    requires INT_MIN <= v <= INT_MAX
    ensures ToInt(v) == v
  {
  }
}
