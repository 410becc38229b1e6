/** What the rest of the platform sees of a command's output: at most 200,000 characters, the middle elided. */
module Runner {
  import opened Domain

  const MAX_OUTPUT := 200_000
  const HALF := MAX_OUTPUT / 2

  function Decimal(n: nat): string {
    if n < 10 then [DIGITS[n]] else Decimal(n / 10) + [DIGITS[n % 10]]
  }

  const DIGITS := "0123456789"

  function Digit(c: char): int {
    c as int - '0' as int
  }

  function Value(digits: string): int {
    if digits == "" then 0 else 10 * Value(digits[..|digits| - 1]) + Digit(digits[|digits| - 1])
  }

  /** A number is written so that it can be read back. */
  lemma {:induction false} DecimalReadsBack(n: nat)
    ensures Value(Decimal(n)) == n && |Decimal(n)| > 0 && (n > 0 ==> Decimal(n)[0] != '0')
  {
    var last := n % 10;
    assert Digit(DIGITS[last]) == last;
    if n < 10 {
      assert Decimal(n)[..0] == "";
    } else {
      DecimalReadsBack(n / 10);
      assert Decimal(n)[..|Decimal(n)| - 1] == Decimal(n / 10);
    }
  }

  /** What stands for the `n` characters cut out. */
  function Marker(n: nat): string {
    "\n...[" + Decimal(n) + " chars truncated]...\n"
  }

  function Truncate(text: string): string {
    if |text| <= MAX_OUTPUT then text
    else text[..HALF] + Marker(|text| - MAX_OUTPUT) + text[|text| - HALF..]
  }

  /** Up to 200,000 characters everything is shown; beyond that the first and the last 100,000, and between them a
      line that says how many are missing. */
  lemma TruncateIs(text: string) returns (line: string, digits: string)
    ensures |text| <= 200_000 ==> Truncate(text) == text
    ensures |text| > 200_000 ==> Truncate(text) == text[..100_000] + line + text[|text| - 100_000..]
    ensures |text| > 200_000 ==> Value(digits) == |text| - 200_000
    ensures line == "\n...[" + digits + " chars truncated]...\n"
  {
    hide Decimal, Value, Marker, Truncate;
    var n := if |text| > 200_000 then |text| - 200_000 else 0;
    digits := Decimal(n);
    DecimalReadsBack(n);
    line := Marker(n);
    MarkerIs(n);
    CutIs(text);
  }

  lemma MarkerIs(n: nat)
    ensures Marker(n) == "\n...[" + Decimal(n) + " chars truncated]...\n"
  {
  }

  lemma CutIs(text: string)
    ensures |text| <= 200_000 ==> Truncate(text) == text
    ensures |text| > 200_000 ==>
      Truncate(text) == text[..100_000] + Marker(|text| - 200_000) + text[|text| - 100_000..]
  {
    hide Marker;
  }

  /** The output is short enough, or its middle happens to read like the marker that replaces it. */
  predicate Fits(text: string) {
    |text| <= MAX_OUTPUT || text[HALF..|text| - HALF] == Marker(|text| - MAX_OUTPUT)
  }

  /** An output is handed on as it was exactly when it fits. */
  lemma ShownWholeIff(text: string)
    ensures Truncate(text) == text <==> Fits(text)
  {
    if |text| > MAX_OUTPUT { MiddleIff(text, Marker(|text| - MAX_OUTPUT)); }
  }

  lemma MiddleIff(text: string, m: string)
    requires |text| > MAX_OUTPUT
    ensures text[..HALF] + m + text[|text| - HALF..] == text <==> text[HALF..|text| - HALF] == m
  {
    var t := text[..HALF] + m + text[|text| - HALF..];
    assert t[HALF..HALF + |m|] == m;
    assert text == text[..HALF] + text[HALF..|text| - HALF] + text[|text| - HALF..];
    if t == text { assert HALF + |m| == |text| - HALF; }
  }

  lemma {:induction false} DecimalIsDigits(n: nat, c: char)
    requires c in Decimal(n)
    ensures '0' <= c <= '9'
  {
    if n >= 10 && c in Decimal(n / 10) { DecimalIsDigits(n / 10, c); }
  }

  /** A character found in the output as shown is in its first or last half, or in the marker. */
  lemma ShownChar(text: string, c: char)
    requires c in Truncate(text) && |text| > MAX_OUTPUT
    ensures c in text[..HALF] || c in text[|text| - HALF..] || c in "\n...[ chars truncated]" || '0' <= c <= '9'
  {
    var n := |text| - MAX_OUTPUT;
    hide Marker;
    assert c in text[..HALF] || c in Marker(n) || c in text[|text| - HALF..];
    if c in Marker(n) { MarkerChar(n, c); }
  }

  lemma MarkerChar(n: nat, c: char)
    requires c in Marker(n)
    ensures c in "\n...[ chars truncated]" || '0' <= c <= '9'
  {
    if c in Decimal(n) { DecimalIsDigits(n, c); }
    assert c in "\n...[" || c in Decimal(n) || c in " chars truncated]...\n";
    assert forall x :: x in " chars truncated]...\n" || x in "\n...[" ==> x in "\n...[ chars truncated]";
  }

  /** One command: what is handed on, and whether it exited cleanly in time. An unclean one may leave anything. */
  datatype Capture = Capture(text: string, finished: bool)

  predicate Captures(c: Capture, output: string) {
    c.finished ==> c.text == Truncate(output)
  }

  /** The capture of a command that finishes, or that is cut off after some text. */
  function CaptureOf(output: string, cut: Option<string>): (c: Capture)
    ensures Captures(c, output)
  {
    match cut
    case None => Capture(Truncate(output), true)
    case Some(text) => Capture(text, false)
  }
}
