/** String helpers standing for the parts of Rust's `str` API the source uses. Strings are sequences of
    Unicode scalar values, like Rust's `char`. */
module Text {

  /** Unicode White_Space, the set `str::trim`, `trim_start` and `char::is_whitespace` use. */
  predicate IsWhitespace(c: char) {
    || ('\t' <= c <= '\r')
    || c == ' ' || c == '\U{85}' || c == '\U{A0}' || c == '\U{1680}'
    || ('\U{2000}' <= c <= '\U{200A}')
    || c == '\U{2028}' || c == '\U{2029}' || c == '\U{202F}' || c == '\U{205F}' || c == '\U{3000}'
  }

  /** `s.trim().is_empty()` */
  predicate IsBlank(s: string) {
    forall i :: 0 <= i < |s| ==> IsWhitespace(s[i])
  }

  /** `r` is `s` with some blank text removed at the front and some at the back, and nothing else. */
  ghost predicate IsBlankTrimmed(s: string, r: string) {
    exists i :: 0 <= i <= |s| - |r| && r == s[i..i + |r|] && IsBlank(s[..i]) && IsBlank(s[i + |r|..])
  }

  predicate IsAsciiAlphanumeric(c: char) {
    ('a' <= c <= 'z') || ('A' <= c <= 'Z') || ('0' <= c <= '9')
  }

  /** `str::trim_start`: drops the leading whitespace and nothing else. */
  function TrimStart(s: string): (r: string)
    ensures |r| <= |s| && r == s[|s| - |r|..]
    ensures IsBlank(s[..|s| - |r|])
    ensures r == [] || !IsWhitespace(r[0])
  {
    if s != [] && IsWhitespace(s[0]) then
      var t := s[1..];
      var r := TrimStart(t);
      assert s[|s| - |r|..] == t[|t| - |r|..];
      var dropped, droppedRest := s[..|s| - |r|], t[..|t| - |r|];
      assert forall i :: 0 <= i < |droppedRest| ==> dropped[i + 1] == droppedRest[i];
      r
    else s
  }

  /** `str::trim_end`: drops the trailing whitespace and nothing else. */
  function TrimEnd(s: string): (r: string)
    ensures |r| <= |s| && r == s[..|r|]
    ensures IsBlank(s[|r|..])
    ensures r == [] || !IsWhitespace(r[|r| - 1])
  {
    if s != [] && IsWhitespace(s[|s| - 1]) then
      var r := TrimEnd(s[..|s| - 1]);
      assert forall i :: |r| <= i < |s| - 1 ==> s[i] == s[..|s| - 1][i];
      r
    else s
  }

  /** `str::trim` */
  function Trim(s: string): (r: string)
    ensures r == [] <==> IsBlank(s)
    ensures r == [] || (!IsWhitespace(r[0]) && !IsWhitespace(r[|r| - 1]))
    ensures IsBlankTrimmed(s, r)
  {
    TrimmedIsBlankTrimmed(s);
    TrimEnd(TrimStart(s))
  }

  /** Trimming the end of the trimmed start keeps a middle part with blank text on either side of it. */
  lemma {:induction false} TrimmedIsBlankTrimmed(s: string)
    ensures var r := TrimEnd(TrimStart(s)); IsBlankTrimmed(s, r) && (r == [] <==> IsBlank(s))
  {
    var t := TrimStart(s);
    var r := TrimEnd(t);
    var k := |s| - |t|;
    assert s[k..] == t;
    BlankAround(s, k, r);
    BlankIffTrimmedEmpty(s);
  }

  /** Trimming gives nothing exactly when the text is blank. */
  lemma {:induction false} BlankIffTrimmedEmpty(s: string)
    ensures TrimEnd(TrimStart(s)) == [] <==> IsBlank(s)
  {
    var t := TrimStart(s);
    if TrimEnd(t) == [] {
      TrimmedEmptyIsBlank(s, t, |s| - |t|);
    }
    if IsBlank(s) {
      BlankTrimsToEmpty(s);
    }
  }

  lemma {:induction false} TrimmedEmptyIsBlank(s: string, t: string, k: nat)
    requires k <= |s| && t == s[k..] && IsBlank(s[..k]) && TrimEnd(t) == []
    ensures IsBlank(s)
  {
    EndTrimmedEmptyIsBlank(t);
    BlankSplit(s, k, t);
  }

  lemma {:induction false} EndTrimmedEmptyIsBlank(t: string)
    requires TrimEnd(t) == []
    ensures IsBlank(t)
  {
    BlankSuffixFromZero(t, TrimEnd(t));
  }

  lemma BlankSuffixFromZero(t: string, r: string)
    requires r == [] && IsBlank(t[|r|..])
    ensures IsBlank(t)
  {
    assert t[|r|..] == t;
  }

  /** Blank text on both sides of a cut makes blank text. */
  lemma BlankSplit(s: string, k: nat, t: string)
    requires k <= |s| && IsBlank(s[..k]) && t == s[k..] && IsBlank(t)
    ensures IsBlank(s)
  {
    forall j | 0 <= j < |s|
      ensures IsWhitespace(s[j])
    {
      if j < k { assert s[j] == s[..k][j]; } else { assert s[j] == t[j - k]; }
    }
  }

  lemma {:induction false} BlankTrimsToEmpty(s: string)
    requires IsBlank(s)
    ensures TrimStart(s) == []
  {
  }

  /** Blank text followed by blank text is blank. */
  lemma BlankConcat(a: string, b: string)
    requires IsBlank(a) && IsBlank(b)
    ensures IsBlank(a + b)
  {
    forall j | 0 <= j < |a + b|
      ensures IsWhitespace((a + b)[j])
    {
      if j < |a| { assert (a + b)[j] == a[j]; } else { assert (a + b)[j] == b[j - |a|]; }
    }
  }

  /** A prefix `r` of the suffix of `s` from `i`, with blank text before and after it, is `s` with blank
      ends removed. */
  lemma BlankAround(s: string, i: nat, r: string)
    requires i <= |s| && |r| <= |s| - i && r == s[i..][..|r|]
    requires IsBlank(s[..i]) && IsBlank(s[i..][|r|..])
    ensures IsBlankTrimmed(s, r)
  {
    assert s[i + |r|..] == s[i..][|r|..];
  }

  /** `chars().take(n).collect()` */
  function Take(s: string, n: nat): (r: string)
    ensures |r| == if |s| < n then |s| else n
    ensures r <= s
  {
    if |s| <= n then s else s[..n]
  }

  /** `[String]::join(sep)` */
  function Join(parts: seq<string>, sep: string): (r: string)
    ensures parts == [] ==> r == ""
    ensures |parts| == 1 ==> r == parts[0]
    ensures |parts| >= 2 ==> |r| >= |sep|
  {
    if parts == [] then ""
    else if |parts| == 1 then parts[0]
    else parts[0] + sep + Join(parts[1..], sep)
  }

  /** Appending a part to a join adds one separator and the part. */
  lemma {:induction false} JoinSnoc(parts: seq<string>, p: string, sep: string)
    ensures Join(parts + [p], sep) == if parts == [] then p else Join(parts, sep) + sep + p
  {
    if |parts| >= 2 {
      assert (parts + [p])[1..] == parts[1..] + [p];
      JoinSnoc(parts[1..], p, sep);
    } else if |parts| == 1 {
      assert (parts + [p])[1..] == [p];
    }
  }

  /** `str::contains` */
  ghost predicate Contains(s: string, t: string) {
    exists i :: 0 <= i <= |s| && t <= s[i..]
  }

  lemma ContainsMiddle(a: string, t: string, b: string)
    ensures Contains(a + t + b, t)
  {
    assert t <= (a + t + b)[|a|..];
  }

  /** ASCII lower-casing; equals `str::to_lowercase` on every character except the few non-ASCII letters
      whose lower-case form is ASCII. */
  function LowerAscii(s: string): (r: string)
    ensures |r| == |s|
    ensures forall i :: 0 <= i < |s| ==> !('A' <= r[i] <= 'Z')
    ensures forall i :: 0 <= i < |s| && 'A' <= s[i] <= 'Z' ==> r[i] as int - 'a' as int == s[i] as int - 'A' as int
    ensures forall i :: 0 <= i < |s| && !('A' <= s[i] <= 'Z') ==> r[i] == s[i]
  {
    seq(|s|, i requires 0 <= i < |s| => if 'A' <= s[i] <= 'Z' then (s[i] as int + 32) as char else s[i])
  }

  predicate IsDigit(c: char) {
    '0' <= c <= '9'
  }

  function DigitChar(d: nat): (c: char)
    requires d < 10
    ensures IsDigit(c) && c as int - '0' as int == d
  {
    ('0' as int + d) as char
  }

  /** The decimal rendering of a natural number, as `format!("{}", n)` writes it. */
  function NatToString(n: nat): (r: string)
    ensures 1 <= |r|
    ensures forall i :: 0 <= i < |r| ==> IsDigit(r[i])
    ensures r[0] == '0' ==> n == 0 && r == "0"
  {
    if n < 10 then [DigitChar(n)] else NatToString(n / 10) + [DigitChar(n % 10)]
  }

  /** The value of a string of decimal digits. */
  function ParseDecimal(s: string): nat
    requires forall i :: 0 <= i < |s| ==> IsDigit(s[i])
  {
    if s == [] then 0
    else
      var last := s[|s| - 1];
      assert IsDigit(last);
      ParseDecimal(s[..|s| - 1]) * 10 + (last as int - '0' as int)
  }

  /** The decimal rendering loses nothing: reading it back gives the number. */
  lemma {:induction false} DecimalRoundTrip(n: nat)
    ensures ParseDecimal(NatToString(n)) == n
  {
    if n >= 10 {
      var s := NatToString(n);
      assert s[..|s| - 1] == NatToString(n / 10);
      DecimalRoundTrip(n / 10);
    }
  }

  /** Distinct numbers render differently. */
  lemma NatToStringInjective(m: nat, n: nat)
    requires NatToString(m) == NatToString(n)
    ensures m == n
  {
    DecimalRoundTrip(m);
    DecimalRoundTrip(n);
  }
}
