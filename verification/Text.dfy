/** The string operations the source relies on, over ASCII text. */
module Text {

  predicate IsSpace(c: char) {
    c == ' ' || '\t' <= c <= '\r' || '\U{1c}' <= c <= '\U{1f}'
  }

  function TrimLeft(s: string): string {
    if s != "" && IsSpace(s[0]) then TrimLeft(s[1..]) else s
  }

  function TrimRight(s: string): string {
    if s != "" && IsSpace(s[|s| - 1]) then TrimRight(s[..|s| - 1]) else s
  }

  function Strip(s: string): string {
    TrimRight(TrimLeft(s))
  }

  function Lower(s: string): string {
    seq(|s|, i requires 0 <= i < |s| => if 'A' <= s[i] <= 'Z' then s[i] - 'A' + 'a' else s[i])
  }

  /** `value.strip().lower()` */
  function Normalize(s: string): string {
    Lower(Strip(s))
  }

  /** Text with no blank at either end: what `strip` returns. */
  predicate Trimmed(s: string) {
    s != "" ==> !IsSpace(s[0]) && !IsSpace(s[|s| - 1])
  }

  lemma {:induction false} StripOfTrimmed(s: string)
    requires Trimmed(s)
    ensures Strip(s) == s
  {}

  lemma {:induction false} TrimLeftShape(s: string)
    ensures TrimLeft(s) != "" ==> !IsSpace(TrimLeft(s)[0]) && TrimLeft(s)[|TrimLeft(s)| - 1] == s[|s| - 1]
  {
    if s != "" && IsSpace(s[0]) { TrimLeftShape(s[1..]); }
  }

  lemma {:induction false} TrimRightShape(s: string)
    ensures TrimRight(s) != "" ==> !IsSpace(TrimRight(s)[|TrimRight(s)| - 1]) && TrimRight(s)[0] == s[0]
  {
    if s != "" && IsSpace(s[|s| - 1]) { TrimRightShape(s[..|s| - 1]); }
  }

  lemma {:induction false} StripIsTrimmed(s: string)
    ensures Trimmed(Strip(s)) && Strip(Strip(s)) == Strip(s)
  {
    TrimLeftShape(s);
    TrimRightShape(TrimLeft(s));
    StripOfTrimmed(Strip(s));
  }

  predicate AllSpace(s: string) {
    forall c :: c in s ==> IsSpace(c)
  }

  lemma {:induction false} TrimLeftMeaning(s: string) returns (cut: nat)
    ensures cut <= |s| && TrimLeft(s) == s[cut..] && AllSpace(s[..cut])
  {
    cut := 0;
    if s != "" && IsSpace(s[0]) {
      var rest := TrimLeftMeaning(s[1..]);
      cut := rest + 1;
      assert s[..cut] == [s[0]] + s[1..][..rest];
    }
  }

  lemma {:induction false} TrimRightMeaning(s: string) returns (keep: nat)
    ensures keep <= |s| && TrimRight(s) == s[..keep] && AllSpace(s[keep..])
  {
    keep := |s|;
    if s != "" && IsSpace(s[|s| - 1]) {
      var n := |s| - 1;
      keep := TrimRightMeaning(s[..n]);
      assert s[keep..] == s[..n][keep..] + [s[n]];
    }
  }

  /** Stripping takes blanks off both ends, all of them and nothing else. */
  lemma {:induction false} StripMeaning(s: string) returns (from: nat, to: nat)
    ensures from <= to <= |s| && Strip(s) == s[from..to] && Trimmed(Strip(s))
    ensures AllSpace(s[..from]) && AllSpace(s[to..])
  {
    from := TrimLeftMeaning(s);
    var keep := TrimRightMeaning(s[from..]);
    to := from + keep;
    StripIsTrimmed(s);
    assert s[from..][..keep] == s[from..to] && s[from..][keep..] == s[to..];
  }

  /** Lower case: every letter, and nothing but letters. */
  lemma {:induction false} LowerMeaning(s: string, i: nat)
    requires i < |s|
    ensures |Lower(s)| == |s| && !('A' <= Lower(s)[i] <= 'Z') && Lower(Lower(s)) == Lower(s)
    ensures 'A' <= s[i] <= 'Z' ==> 'a' <= Lower(s)[i] <= 'z' && Lower(s)[i] - 'a' == s[i] - 'A'
    ensures !('A' <= s[i] <= 'Z') ==> Lower(s)[i] == s[i]
  {}

  predicate IsDigit(c: char) { '0' <= c <= '9' }

  predicate AllDigits(s: string) {
    s != "" && forall i :: 0 <= i < |s| ==> IsDigit(s[i])
  }

  function Decimal(n: nat): (s: string)
    ensures AllDigits(s)
  {
    if n < 10 then [n as char + '0'] else Decimal(n / 10) + [(n % 10) as char + '0']
  }

  function DigitsValue(s: string): nat
    requires forall i :: 0 <= i < |s| ==> IsDigit(s[i])
  {
    if s == "" then 0
    else
      assert IsDigit(s[|s| - 1]);
      DigitsValue(s[..|s| - 1]) * 10 + (s[|s| - 1] - '0') as nat
  }

  lemma {:induction false} DecimalRoundTrip(n: nat)
    ensures DigitsValue(Decimal(n)) == n
  {
    if n >= 10 {
      DecimalRoundTrip(n / 10);
      var s := Decimal(n);
      assert s[..|s| - 1] == Decimal(n / 10);
    }
  }
}
