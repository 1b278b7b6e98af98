/**
 * The two identifier sanitisers of job synthesis: the job-name pipeline,
 * which aims at the host-name syntax of section 2.1 of RFC 1123, and the
 * label-value cleaner. Both truncate to 63 characters, replace characters
 * outside an alphabet by '-', and strip the non-alphanumeric runs at both
 * ends. Characters are taken to be ASCII.
 */
module Sanitize {

  /** Longest resource name and longest label value the platform accepts. */
  const MaxLength: nat := 63

  predicate IsDigit(c: char) { '0' <= c <= '9' }
  predicate IsLower(c: char) { 'a' <= c <= 'z' }
  predicate IsUpper(c: char) { 'A' <= c <= 'Z' }

  /** `[a-z0-9]` */
  predicate IsLowerAlnum(c: char) { IsLower(c) || IsDigit(c) }
  /** `[A-Za-z0-9]` */
  predicate IsAlnum(c: char) { IsLower(c) || IsUpper(c) || IsDigit(c) }
  /** `[a-z0-9.-]`, the alphabet of job names */
  predicate IsNameChar(c: char) { IsLowerAlnum(c) || c == '.' || c == '-' }
  /** `[A-Za-z0-9_.-]`, the alphabet of label values */
  predicate IsLabelChar(c: char) { IsAlnum(c) || c == '_' || c == '.' || c == '-' }

  /** ASCII lower-casing of one character. */
  function LowerChar(c: char): (d: char)
    ensures IsUpper(c) ==> IsLower(d) && d as int == c as int + 32
    ensures !IsUpper(c) ==> d == c
    ensures !IsUpper(d)
  {
    if IsUpper(c) then (c as int + 32) as char else c
  }

  /** `strings.ToLower`, restricted to ASCII. */
  function ToLower(s: string): (r: string)
    ensures |r| == |s|
    ensures forall i :: 0 <= i < |s| ==> r[i] == LowerChar(s[i])
    ensures forall i :: 0 <= i < |r| ==> !IsUpper(r[i])
  {
    seq(|s|, i requires 0 <= i < |s| => LowerChar(s[i]))
  }

  /** Lower-casing changes a string exactly when it holds an upper-case letter, so it is idempotent. */
  lemma ToLowerFixedPoints(s: string)
    ensures ToLower(s) == s <==> forall i :: 0 <= i < |s| ==> !IsUpper(s[i])
    ensures ToLower(ToLower(s)) == ToLower(s)
  {
    if ToLower(s) == s {
      forall i | 0 <= i < |s| ensures !IsUpper(s[i]) {
        assert s[i] == ToLower(s)[i];
      }
    }
  }

  /** Keep the first `n` characters. */
  function Truncate(s: string, n: nat): (r: string)
    ensures |r| <= n && |r| <= |s|
    ensures r == s[..|r|]
    ensures |s| <= n ==> r == s
    ensures |s| > n ==> |r| == n
  {
    if |s| > n then s[..n] else s
  }

  /** The two alphabets: job names and label values. */
  datatype Alphabet = NameAlphabet | LabelAlphabet

  /** The characters an alphabet admits. */
  predicate Allowed(a: Alphabet, c: char)
  {
    match a
    case NameAlphabet => IsNameChar(c)
    case LabelAlphabet => IsLabelChar(c)
  }

  /** The characters an identifier of the alphabet may start and end with. */
  predicate Edge(a: Alphabet, c: char)
  {
    match a
    case NameAlphabet => IsLowerAlnum(c)
    case LabelAlphabet => IsAlnum(c)
  }

  /** The replacement of one character outside the alphabet. */
  function Substitute(c: char, a: Alphabet): char
  {
    if Allowed(a, c) then c else '-'
  }

  /** Replace every character outside the alphabet by '-'. */
  function Replace(s: string, a: Alphabet): (r: string)
    ensures |r| == |s|
    ensures forall i :: 0 <= i < |s| ==> r[i] == Substitute(s[i], a)
    ensures forall i :: 0 <= i < |r| ==> Allowed(a, r[i])
    ensures (forall i :: 0 <= i < |s| ==> Allowed(a, s[i])) ==> r == s
  {
    seq(|s|, i requires 0 <= i < |s| => Substitute(s[i], a))
  }

  /** Length of the leading run of characters that may not start an identifier of the alphabet. */
  function LeadingRun(s: string, a: Alphabet): (n: nat)
    ensures n <= |s|
    ensures forall i :: 0 <= i < n ==> !Edge(a, s[i])
    ensures n == |s| || Edge(a, s[n])
  {
    if s == [] || Edge(a, s[0]) then 0 else 1 + LeadingRun(s[1..], a)
  }

  /** Length of the trailing run of characters that may not end an identifier of the alphabet. */
  function TrailingRun(s: string, a: Alphabet): (n: nat)
    ensures n <= |s|
    ensures forall i :: |s| - n <= i < |s| ==> !Edge(a, s[i])
    ensures n == |s| || Edge(a, s[|s| - n - 1])
  {
    if s == [] || Edge(a, s[|s| - 1]) then 0 else 1 + TrailingRun(s[..|s| - 1], a)
  }

  /** `^[^edge]+` replaced by "": strip the leading run. */
  function TrimLeft(s: string, a: Alphabet): string
  {
    s[LeadingRun(s, a)..]
  }

  /** `[^edge]+$` replaced by "": strip the trailing run. */
  function TrimRight(s: string, a: Alphabet): string
  {
    s[..|s| - TrailingRun(s, a)]
  }

  /** Replace characters outside the alphabet, then strip the non-edge runs at both ends. */
  function Clean(s: string, a: Alphabet): (r: string)
    ensures |r| <= |s|
  {
    TrimRight(TrimLeft(Replace(s, a), a), a)
  }

  /** The job-name pipeline: truncate, lower-case, replace outside `[a-z0-9.-]`, strip non-`[a-z0-9]` ends. */
  function SanitizeName(s: string): (r: string)
    ensures |r| <= MaxLength && |r| <= |s|
  {
    Clean(ToLower(Truncate(s, MaxLength)), NameAlphabet)
  }

  /** `sanitizeLabelValue`: truncate, replace outside `[A-Za-z0-9_.-]`, strip non-`[A-Za-z0-9]` ends. */
  function SanitizeLabelValue(s: string): (r: string)
    ensures |r| <= MaxLength && |r| <= |s|
  {
    Clean(Truncate(s, MaxLength), LabelAlphabet)
  }

  /** A well-formed job name: at most 63 characters of `[a-z0-9.-]`, alphanumeric at both ends unless empty. */
  predicate ValidName(s: string)
  {
    && |s| <= MaxLength
    && (forall i :: 0 <= i < |s| ==> IsNameChar(s[i]))
    && (s == [] || (IsLowerAlnum(s[0]) && IsLowerAlnum(s[|s| - 1])))
  }

  /** A well-formed label value: at most 63 characters of `[A-Za-z0-9_.-]`, alphanumeric at both ends unless empty. */
  predicate ValidLabelValue(s: string)
  {
    && |s| <= MaxLength
    && (forall i :: 0 <= i < |s| ==> IsLabelChar(s[i]))
    && (s == [] || (IsAlnum(s[0]) && IsAlnum(s[|s| - 1])))
  }

  /** Cleaning yields characters of the alphabet with kept characters at both ends. */
  lemma CleanWellFormed(s: string, a: Alphabet)
    ensures var r := Clean(s, a);
      && |r| <= |s|
      && (forall i :: 0 <= i < |r| ==> Allowed(a, r[i]))
      && (r == [] || (Edge(a, r[0]) && Edge(a, r[|r| - 1])))
  {
    var u := Replace(s, a);
    var v := TrimLeft(u, a);
    var r := TrimRight(v, a);
    assert r == Clean(s, a);
    forall i | 0 <= i < |r| ensures Allowed(a, r[i]) {
      assert r[i] == v[i] == u[|u| - |v| + i];
    }
    if r != [] {
      assert r[0] == v[0];
    }
  }

  /** Cleaning leaves a string that is already clean unchanged. */
  lemma CleanFixesClean(s: string, a: Alphabet)
    requires forall i :: 0 <= i < |s| ==> Allowed(a, s[i])
    requires s == [] || (Edge(a, s[0]) && Edge(a, s[|s| - 1]))
    ensures Clean(s, a) == s
  {
    assert Replace(s, a) == s;
  }

  /**
   * The cleaned string is one window of the replaced string, and everything
   * outside the window that was stripped is not an edge character.
   */
  lemma CleanWindow(s: string, a: Alphabet) returns (k: nat)
    ensures var r := Clean(s, a);
      && k + |r| <= |s|
      && (forall i :: 0 <= i < |r| ==> r[i] == Substitute(s[k + i], a))
      && (forall i :: 0 <= i < k ==> !Edge(a, Substitute(s[i], a)))
      && (forall i :: k + |r| <= i < |s| ==> !Edge(a, Substitute(s[i], a)))
  {
    var u := Replace(s, a);
    var v := TrimLeft(u, a);
    var r := TrimRight(v, a);
    k := |u| - |v|;
    assert r == Clean(s, a);
    forall i | 0 <= i < |r| ensures r[i] == Substitute(s[k + i], a) {
      assert r[i] == v[i] == u[k + i];
    }
    forall i | k + |r| <= i < |s| ensures !Edge(a, Substitute(s[i], a)) {
      assert v[i - k] == u[i];
    }
  }

  /** The job-name pipeline always yields a well-formed name. */
  lemma SanitizeNameValid(s: string)
    ensures ValidName(SanitizeName(s))
  {
    CleanWellFormed(ToLower(Truncate(s, MaxLength)), NameAlphabet);
  }

  /** A well-formed name passes the job-name pipeline unchanged. */
  lemma SanitizeNameFixesValid(s: string)
    requires ValidName(s)
    ensures SanitizeName(s) == s
  {
    assert Truncate(s, MaxLength) == s;
    assert ToLower(s) == s;
    CleanFixesClean(s, NameAlphabet);
  }

  /** The job-name pipeline changes a string exactly when the string is not a well-formed name. */
  lemma SanitizeNameFixedPoints(s: string)
    ensures SanitizeName(s) == s <==> ValidName(s)
  {
    SanitizeNameValid(s);
    if ValidName(s) {
      SanitizeNameFixesValid(s);
    }
  }

  /** The job-name pipeline is idempotent. */
  lemma SanitizeNameIdempotent(s: string)
    ensures SanitizeName(SanitizeName(s)) == SanitizeName(s)
  {
    SanitizeNameValid(s);
    SanitizeNameFixesValid(SanitizeName(s));
  }

  /**
   * The name is a window of the first 63 characters, each lower-cased and
   * replaced by '-' when outside `[a-z0-9.-]`; what lies outside the window
   * maps to '.' or '-'.
   */
  lemma SanitizeNameWindow(s: string) returns (k: nat)
    ensures var r := SanitizeName(s); var t := Truncate(s, MaxLength);
      && k + |r| <= |t|
      && (forall i :: 0 <= i < |r| ==> r[i] == Substitute(LowerChar(t[k + i]), NameAlphabet))
      && (forall i :: 0 <= i < k ==> !IsLowerAlnum(Substitute(LowerChar(t[i]), NameAlphabet)))
      && (forall i :: k + |r| <= i < |t| ==> !IsLowerAlnum(Substitute(LowerChar(t[i]), NameAlphabet)))
  {
    k := CleanWindow(ToLower(Truncate(s, MaxLength)), NameAlphabet);
  }

  /** The label cleaner always yields a well-formed label value. */
  lemma SanitizeLabelValueValid(s: string)
    ensures ValidLabelValue(SanitizeLabelValue(s))
  {
    CleanWellFormed(Truncate(s, MaxLength), LabelAlphabet);
  }

  /** A well-formed label value passes the label cleaner unchanged. */
  lemma SanitizeLabelValueFixesValid(s: string)
    requires ValidLabelValue(s)
    ensures SanitizeLabelValue(s) == s
  {
    assert Truncate(s, MaxLength) == s;
    CleanFixesClean(s, LabelAlphabet);
  }

  /** The label cleaner changes a string exactly when it is not a well-formed label value. */
  lemma SanitizeLabelValueFixedPoints(s: string)
    ensures SanitizeLabelValue(s) == s <==> ValidLabelValue(s)
  {
    SanitizeLabelValueValid(s);
    if ValidLabelValue(s) {
      SanitizeLabelValueFixesValid(s);
    }
  }

  /** The label cleaner is idempotent. */
  lemma SanitizeLabelValueIdempotent(s: string)
    ensures SanitizeLabelValue(SanitizeLabelValue(s)) == SanitizeLabelValue(s)
  {
    SanitizeLabelValueValid(s);
    SanitizeLabelValueFixesValid(SanitizeLabelValue(s));
  }

  /**
   * The label value is a window of the first 63 characters in which every
   * character of `[A-Za-z0-9_.-]` keeps its case and every other becomes '-';
   * what lies outside the window is not alphanumeric.
   */
  lemma SanitizeLabelValueWindow(s: string) returns (k: nat)
    ensures var r := SanitizeLabelValue(s); var t := Truncate(s, MaxLength);
      && k + |r| <= |t|
      && (forall i :: 0 <= i < |r| ==> r[i] == if IsLabelChar(t[k + i]) then t[k + i] else '-')
      && (forall i :: 0 <= i < k ==> !IsAlnum(t[i]))
      && (forall i :: k + |r| <= i < |t| ==> !IsAlnum(t[i]))
  {
    k := CleanWindow(Truncate(s, MaxLength), LabelAlphabet);
  }

  /** The decimal digit for `d`. */
  function DigitChar(d: nat): (c: char)
    requires d < 10
    ensures IsDigit(c)
  {
    ('0' as int + d) as char
  }

  /** `%d` of a natural number: its decimal digits, most significant first. */
  function Decimal(n: nat): (r: string)
    ensures |r| >= 1
    ensures forall i :: 0 <= i < |r| ==> IsDigit(r[i])
  {
    if n < 10 then [DigitChar(n)] else Decimal(n / 10) + [DigitChar(n % 10)]
  }

  /** The value of one decimal digit. */
  function DigitValue(c: char): (d: nat)
    requires IsDigit(c)
    ensures d < 10
  {
    c as int - '0' as int
  }

  /** The number a string of decimal digits denotes. */
  function DecimalValue(s: string): nat
    requires forall i :: 0 <= i < |s| ==> IsDigit(s[i])
  {
    if s == [] then 0 else 10 * DecimalValue(s[..|s| - 1]) + DigitValue(s[|s| - 1])
  }

  /** Reading back the decimal digits of `n` gives `n`. */
  lemma {:induction false} DecimalRoundTrip(n: nat)
    ensures DecimalValue(Decimal(n)) == n
  {
    if n >= 10 {
      DecimalRoundTrip(n / 10);
      var d := Decimal(n);
      assert d[..|d| - 1] == Decimal(n / 10);
    }
  }

  /** Distinct numbers have distinct decimal texts. */
  lemma DecimalInjective(m: nat, n: nat)
    requires Decimal(m) == Decimal(n)
    ensures m == n
  {
    DecimalRoundTrip(m);
    DecimalRoundTrip(n);
  }

  /** The name of the job created for an action: `{rule}-{action}-{unixSeconds}` through the job-name pipeline. */
  function JobName(ruleName: string, actionName: string, unixSeconds: nat): (r: string)
    ensures ValidName(r)
  {
    SanitizeNameValid(ruleName + "-" + actionName + "-" + Decimal(unixSeconds));
    SanitizeName(ruleName + "-" + actionName + "-" + Decimal(unixSeconds))
  }

  /**
   * When `{rule}-{action}-` already fills the 63 characters, truncation cuts
   * the timestamp off and the name no longer depends on the time.
   */
  lemma LongJobNamesIgnoreTime(ruleName: string, actionName: string, t1: nat, t2: nat)
    requires |ruleName| + |actionName| + 2 >= MaxLength
    ensures JobName(ruleName, actionName, t1) == JobName(ruleName, actionName, t2)
  {
    var stem := ruleName + "-" + actionName + "-";
    assert Truncate(stem + Decimal(t1), MaxLength) == stem[..MaxLength];
    assert Truncate(stem + Decimal(t2), MaxLength) == stem[..MaxLength];
  }

  /** The part of a job name that comes from the rule and action names. */
  function NameStem(ruleName: string, actionName: string): string
  {
    TrimLeft(Replace(ToLower(ruleName + "-" + actionName + "-"), NameAlphabet), NameAlphabet)
  }

  /** The leading run is the only length with the three properties that define it. */
  lemma LeadingRunUnique(s: string, a: Alphabet, n: nat)
    requires n <= |s|
    requires forall i :: 0 <= i < n ==> !Edge(a, s[i])
    requires n == |s| || Edge(a, s[n])
    ensures LeadingRun(s, a) == n
  {
  }

  /**
   * When the composed name fits in 63 characters, the job name is the
   * cleaned stem followed by the full decimal timestamp.
   */
  lemma JobNameEndsWithTime(ruleName: string, actionName: string, unixSeconds: nat)
    requires |ruleName| + |actionName| + 2 + |Decimal(unixSeconds)| <= MaxLength
    ensures JobName(ruleName, actionName, unixSeconds) == NameStem(ruleName, actionName) + Decimal(unixSeconds)
  {
    var stem := ruleName + "-" + actionName + "-";
    var d := Decimal(unixSeconds);
    assert Truncate(stem + d, MaxLength) == stem + d;
    LowerAppendDigits(stem, d);
    ReplaceAppendDigits(ToLower(stem), d);
    CleanAppendDigits(Replace(ToLower(stem), NameAlphabet), d);
  }

  /** Lower-casing leaves digits alone. */
  lemma LowerAppendDigits(s: string, d: string)
    requires forall i :: 0 <= i < |d| ==> IsDigit(d[i])
    ensures ToLower(s + d) == ToLower(s) + d
  {
  }

  /** Digits belong to the name alphabet. */
  lemma ReplaceAppendDigits(s: string, d: string)
    requires forall i :: 0 <= i < |d| ==> IsDigit(d[i])
    ensures Replace(s + d, NameAlphabet) == Replace(s, NameAlphabet) + d
  {
  }

  /** Stripping the ends of a string followed by digits strips only the front of the string. */
  lemma CleanAppendDigits(p: string, d: string)
    requires |d| >= 1
    requires forall i :: 0 <= i < |d| ==> IsDigit(d[i])
    ensures TrimRight(TrimLeft(p + d, NameAlphabet), NameAlphabet) == TrimLeft(p, NameAlphabet) + d
  {
    var n := LeadingRun(p, NameAlphabet);
    assert forall i :: 0 <= i < n ==> (p + d)[i] == p[i];
    assert n == |p| ==> (p + d)[n] == d[0];
    LeadingRunUnique(p + d, NameAlphabet, n);
    var q := (p + d)[n..];
    assert q == p[n..] + d;
    assert q[|q| - 1] == d[|d| - 1];
    assert TrailingRun(q, NameAlphabet) == 0;
  }

  /**
   * Jobs triggered in different seconds get different names, as long as the
   * composed name fits in 63 characters; within one second they collide.
   */
  lemma JobNamesDifferAcrossSeconds(ruleName: string, actionName: string, t1: nat, t2: nat)
    requires |ruleName| + |actionName| + 2 + |Decimal(t1)| <= MaxLength
    requires |ruleName| + |actionName| + 2 + |Decimal(t2)| <= MaxLength
    requires t1 != t2
    ensures JobName(ruleName, actionName, t1) != JobName(ruleName, actionName, t2)
  {
    JobNameEndsWithTime(ruleName, actionName, t1);
    JobNameEndsWithTime(ruleName, actionName, t2);
    var stem := NameStem(ruleName, actionName);
    if JobName(ruleName, actionName, t1) == JobName(ruleName, actionName, t2) {
      assert (stem + Decimal(t1))[|stem|..] == Decimal(t1);
      assert (stem + Decimal(t2))[|stem|..] == Decimal(t2);
      DecimalInjective(t1, t2);
    }
  }
}
