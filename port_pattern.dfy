/** The file-name pattern of `getDebugPorts`. The source passes the string literal
    "dap\.([0-9]+)\.debug" to `String.prototype.match`; in a string literal `\.` is just `.`, so
    the regular expression actually compiled is /dap.([0-9]+).debug/: unanchored, with each `.`
    matching one UTF-16 code unit other than a line terminator. Names are sequences of Unicode
    scalar values here; `DotMatches` accounts for the characters that take two code units. The
    module follows the engine's leftmost start and its greedy-then-backtracking digit run. */
module PortPattern {
  import opened Wrappers

  /** The characters `.` does not match without the `s` flag. */
  predicate IsLineTerminator(c: char)
  {
    c == '\n' || c == '\r' || c == '\U{2028}' || c == '\U{2029}'
  }

  /** The characters one `.` matches. Without the `u` flag the engine reads a name as UTF-16
      code units: `.` takes one unit that is not a line terminator. A character outside the Basic
      Multilingual Plane is two units (a surrogate pair), so `.` takes only its high half, and the
      low half that follows is neither a digit nor `d`: the match fails at that start. */
  predicate DotMatches(c: char)
  {
    !IsLineTerminator(c) && (c as int) < 0x1_0000
  }

  predicate IsDigit(c: char)
  {
    '0' <= c <= '9'
  }

  predicate AllDigits(s: string)
  {
    forall k :: 0 <= k < |s| ==> IsDigit(s[k])
  }

  /** The expression matches `s` starting at index `i` with a capture of exactly `k` digits:
      "dap", one character, `k` digits, one character, "debug". */
  predicate MatchesAt(s: string, i: nat, k: nat)
  {
    && 1 <= k
    && i + k + 10 <= |s|
    && s[i..i + 3] == "dap"
    && DotMatches(s[i + 3])
    && AllDigits(s[i + 4..i + 4 + k])
    && DotMatches(s[i + 4 + k])
    && s[i + 5 + k..i + 10 + k] == "debug"
  }

  /** The match the engine reports: the leftmost start, and at that start the longest capture
      (greedy `+`, giving back one digit at a time). */
  ghost predicate IsReportedMatch(s: string, i: nat, k: nat)
  {
    && MatchesAt(s, i, k)
    && (forall j: nat, k': nat :: j < i ==> !MatchesAt(s, j, k'))
    && (forall k': nat :: k < k' ==> !MatchesAt(s, i, k'))
  }

  /** Length of the run of digits that starts at index `j`. */
  function DigitRun(s: string, j: nat): (n: nat)
    requires j <= |s|
    ensures j + n <= |s|
    ensures forall d :: j <= d < j + n ==> IsDigit(s[d])
    ensures j + n == |s| || !IsDigit(s[j + n])
    decreases |s| - j
  {
    if j < |s| && IsDigit(s[j]) then 1 + DigitRun(s, j + 1) else 0
  }

  /** Backtracking over the digit run: try a capture of `k` digits, then `k - 1`, down to 1. */
  function Backtrack(s: string, i: nat, k: nat): (r: Option<nat>)
    ensures r.Some? ==> 1 <= r.value <= k && MatchesAt(s, i, r.value)
    ensures r.Some? ==> forall k': nat :: r.value < k' <= k ==> !MatchesAt(s, i, k')
    ensures r.None? ==> forall k': nat :: k' <= k ==> !MatchesAt(s, i, k')
  {
    if k == 0 then None
    else if MatchesAt(s, i, k) then Some(k)
    else Backtrack(s, i, k - 1)
  }

  /** One attempt of the engine at start index `i`: the capture length, if the attempt succeeds. */
  function MatchFrom(s: string, i: nat): (r: Option<nat>)
    ensures r.Some? ==> MatchesAt(s, i, r.value) && forall k': nat :: r.value < k' ==> !MatchesAt(s, i, k')
    ensures r.None? ==> forall k': nat :: !MatchesAt(s, i, k')
  {
    if i + 4 <= |s| then
      var n := DigitRun(s, i + 4);
      CaptureWithinRun(s, i, n);
      Backtrack(s, i, n)
    else
      None
  }

  /** A capture never extends past the run of digits that `[0-9]+` can consume. */
  lemma CaptureWithinRun(s: string, i: nat, n: nat)
    requires i + 4 <= |s| && n == DigitRun(s, i + 4)
    ensures forall k: nat :: MatchesAt(s, i, k) ==> k <= n
  {
    forall k: nat | MatchesAt(s, i, k)
      ensures k <= n
    {
      assert forall d :: i + 4 <= d < i + 4 + k ==> IsDigit(s[d]);
    }
  }

  /** The engine's scan for the leftmost start at or after `i`: (start, capture length). */
  function Search(s: string, i: nat): (r: Option<(nat, nat)>)
    requires i <= |s|
    ensures r.Some? ==> i <= r.value.0 && MatchesAt(s, r.value.0, r.value.1)
    ensures r.Some? ==> forall j: nat, k': nat :: i <= j < r.value.0 ==> !MatchesAt(s, j, k')
    ensures r.Some? ==> forall k': nat :: r.value.1 < k' ==> !MatchesAt(s, r.value.0, k')
    ensures r.None? ==> forall j: nat, k': nat :: i <= j ==> !MatchesAt(s, j, k')
    decreases |s| - i
  {
    match MatchFrom(s, i)
    case Some(k) => Some((i, k))
    case None => if i == |s| then None else Search(s, i + 1)
  }

  /** `parseInt` of a string of decimal digits. */
  function DecimalValue(digits: string): (n: nat)
    requires AllDigits(digits)
  {
    if digits == [] then 0
    else 10 * DecimalValue(digits[..|digits| - 1]) + (digits[|digits| - 1] as int - '0' as int)
  }

  /** The port an entry name yields at line 221, if any: the value of the first capture group. */
  function ParsePort(name: string): (r: Option<nat>)
    ensures r.Some? <==> exists i: nat, k: nat :: MatchesAt(name, i, k)
    ensures r.Some? ==> exists i: nat, k: nat :: IsReportedMatch(name, i, k) && r.value == DecimalValue(name[i + 4..i + 4 + k])
  {
    match Search(name, 0)
    case None => None
    case Some((i, k)) =>
      assert IsReportedMatch(name, i, k);
      Some(DecimalValue(name[i + 4..i + 4 + k]))
  }

  /** The engine's answer is determined: at most one (start, capture) pair is the reported match. */
  lemma ReportedMatchUnique(s: string, i1: nat, k1: nat, i2: nat, k2: nat)
    requires IsReportedMatch(s, i1, k1) && IsReportedMatch(s, i2, k2)
    ensures i1 == i2 && k1 == k2
  {
  }

  /** Any name of the shape "dap" + one character + digits + one non-digit + "debug" yields the
      value of its digits; "dap.<digits>.debug" is one such name, "dap_<digits>_debug" another. */
  lemma {:induction false} ParsePortShaped(first: char, digits: string, second: char)
    requires DotMatches(first) && DotMatches(second) && !IsDigit(second)
    requires |digits| >= 1 && AllDigits(digits)
    ensures ParsePort("dap" + [first] + digits + [second] + "debug") == Some(DecimalValue(digits))
  {
    var name := "dap" + [first] + digits + [second] + "debug";
    var k := |digits|;
    assert name[..3] == "dap";
    assert name[4..4 + k] == digits;
    assert name[4 + k] == second;
    assert name[5 + k..10 + k] == "debug";
    assert MatchesAt(name, 0, k);
    assert IsReportedMatch(name, 0, k);
    var i', k' :| IsReportedMatch(name, i', k') && ParsePort(name).value == DecimalValue(name[i' + 4..i' + 4 + k']);
    ReportedMatchUnique(name, 0, k, i', k');
  }

  /** A character outside the Basic Multilingual Plane where a `.` stands makes the engine skip
      the entry: "dap\U{1F600}7.debug" yields no port. */
  lemma ParsePortSkipsAstral()
    ensures ParsePort("dap" + ['\U{1F600}'] + "7" + "." + "debug") == None
  {
    var name := "dap" + ['\U{1F600}'] + "7" + "." + "debug";
    assert |name| == 11 && name[3] == '\U{1F600}';
    assert !MatchesAt(name, 0, 1);
  }

  /** The canonical decimal spelling of a port number. */
  function DecimalString(n: nat): (r: string)
    ensures |r| >= 1 && AllDigits(r)
  {
    var last := ['0' + (n % 10) as char];
    if n < 10 then last else DecimalString(n / 10) + last
  }

  /** `parseInt` reads back the canonical spelling. */
  lemma {:induction false} DecimalRoundTrip(n: nat)
    ensures DecimalValue(DecimalString(n)) == n
  {
    var d := DecimalString(n);
    if n >= 10 {
      DecimalRoundTrip(n / 10);
      assert d[..|d| - 1] == DecimalString(n / 10);
    }
  }

  /** The marker file a debug server listening on `port` creates: `dap.<port>.debug`. */
  function MarkerFileName(port: nat): string
  {
    "dap" + "." + DecimalString(port) + "." + "debug"
  }

  /** A marker file name yields the port it was made from. */
  lemma ParsePortCanonical(port: nat)
    ensures ParsePort(MarkerFileName(port)) == Some(port)
  {
    var digits := DecimalString(port);
    ParsePortShaped('.', digits, '.');
    DecimalRoundTrip(port);
  }

  /** Since the dots are not escaped, a greedy digit run may give back its last digit to the
      second `.`: "dap.123debug" is accepted and yields 12. */
  lemma ParsePortBacktracks()
    ensures ParsePort("dap.123debug") == Some(12)
  {
    var name := "dap.123debug";
    assert DigitRun(name, 4) == 3 by {
      assert DigitRun(name, 7) == 0;
    }
    assert !MatchesAt(name, 0, 3);
    assert MatchesAt(name, 0, 2) by {
      assert name[..3] == "dap";
      assert name[4..6] == "12";
      assert name[7..12] == "debug";
    }
    assert Search(name, 0) == Some((0, 2));
    assert DecimalValue("12") == 12 by {
      assert "12"[..1] == "1";
      assert "1"[..0] == "";
    }
  }

  /** A name too short to hold "dap", a character, a digit, a character and "debug" never matches. */
  lemma ShortNamesNeverMatch(name: string)
    requires |name| < 11
    ensures ParsePort(name) == None
  {
  }
}
