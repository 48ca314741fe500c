/**
  Output-filename resolution from `generate_qr_code`: a default name built
  from the current time with `strftime("%Y%m%d_%H%M%S")`, then the rule
  that the name must end in `.png` (compared case-insensitively).
  The clock is not read here; the time is a parameter.
 */
module Filename {
  import opened Wrappers
  import opened Text

  /** A local date and time as `datetime.now()` yields it (no fractions of a second). */
  datatype Timestamp = Timestamp(year: int, month: int, day: int, hour: int, minute: int, second: int)

  predicate IsLeapYear(y: int) {
    y % 4 == 0 && (y % 100 != 0 || y % 400 == 0)
  }

  function DaysInMonth(year: int, month: int): int
    requires 1 <= month <= 12
  {
    if month == 2 then (if IsLeapYear(year) then 29 else 28)
    else if month == 4 || month == 6 || month == 9 || month == 11 then 30
    else 31
  }

  /** A calendar instant whose year has four digits, so that `%Y` is four characters wide. */
  predicate ValidTimestamp(t: Timestamp) {
    && 1000 <= t.year <= 9999
    && 1 <= t.month <= 12
    && 1 <= t.day <= DaysInMonth(t.year, t.month)
    && 0 <= t.hour < 24
    && 0 <= t.minute < 60
    && 0 <= t.second < 60
  }

  function Pow10(n: nat): (p: nat)
    ensures p >= 1
  {
    if n == 0 then 1 else 10 * Pow10(n - 1)
  }

  predicate IsDigit(c: char) {
    '0' <= c <= '9'
  }

  predicate AllDigits(s: string) {
    forall i :: 0 <= i < |s| ==> IsDigit(s[i])
  }

  function DigitChar(d: nat): (c: char)
    requires d < 10
    ensures IsDigit(c)
  {
    ('0' as int + d) as char
  }

  function DigitValue(c: char): (d: nat)
    requires IsDigit(c)
    ensures d < 10
  {
    c as int - '0' as int
  }

  /** The number a string of decimal digits denotes (most significant first). */
  function DecimalValue(s: string): nat
    requires AllDigits(s)
  {
    if s == [] then 0 else 10 * DecimalValue(s[..|s| - 1]) + DigitValue(s[|s| - 1])
  }

  /** Zero-padded, fixed-width decimal rendering, as `%m`, `%d`, `%H`, `%M`
      and `%S` do with width 2 and `%Y` with width 4: exactly `width`
      digits that read back as `n`. */
  function PadDigits(n: nat, width: nat): (s: string)
    requires n < Pow10(width)
    ensures |s| == width
    ensures AllDigits(s)
    ensures DecimalValue(s) == n
  {
    if width == 0 then []
    else
      var front := PadDigits(n / 10, width - 1);
      var s := front + [DigitChar(n % 10)];
      assert s[..|s| - 1] == front;
      s
  }

  /** `strftime("%Y%m%d_%H%M%S")`: eight date digits, an underscore, six time digits. */
  function FormatTimestamp(t: Timestamp): (s: string)
    requires ValidTimestamp(t)
    ensures |s| == 15
    ensures AllDigits(s[..8]) && s[8] == '_' && AllDigits(s[9..])
  {
    var date := PadDigits(t.year, 4) + PadDigits(t.month, 2) + PadDigits(t.day, 2);
    var time := PadDigits(t.hour, 2) + PadDigits(t.minute, 2) + PadDigits(t.second, 2);
    assert (date + "_" + time)[..8] == date;
    assert (date + "_" + time)[9..] == time;
    date + "_" + time
  }

  /** Reads the fields back out of a rendered timestamp. */
  function ParseTimestamp(s: string): Timestamp
    requires |s| == 15 && AllDigits(s[..8]) && AllDigits(s[9..])
  {
    Timestamp(DecimalValue(s[0..4]), DecimalValue(s[4..6]), DecimalValue(s[6..8]),
              DecimalValue(s[9..11]), DecimalValue(s[11..13]), DecimalValue(s[13..15]))
  }

  /** Rendering loses nothing: every field can be read back. */
  lemma ParseFormatTimestamp(t: Timestamp)
    requires ValidTimestamp(t)
    ensures ParseTimestamp(FormatTimestamp(t)) == t
  {
    var s := FormatTimestamp(t);
    assert s[0..4] == PadDigits(t.year, 4);
    assert s[4..6] == PadDigits(t.month, 2);
    assert s[6..8] == PadDigits(t.day, 2);
    assert s[9..11] == PadDigits(t.hour, 2);
    assert s[11..13] == PadDigits(t.minute, 2);
    assert s[13..15] == PadDigits(t.second, 2);
  }

  const Png: string := ".png"
  const DefaultPrefix: string := "qr_code_"

  /** `filename.lower().endswith('.png')`: the last four characters are a
      dot and the letters p, n, g, each in either case. */
  predicate HasPngExtension(name: string): (b: bool)
    ensures b <==> |name| >= 4 && name[|name| - 4] == '.'
                   && name[|name| - 3] in "pP" && name[|name| - 2] in "nN" && name[|name| - 1] in "gG"
  {
    var low := Lower(name);
    assert |name| >= 4 ==> low[|low| - 4..] == [low[|low| - 4], low[|low| - 3], low[|low| - 2], low[|low| - 1]];
    EndsWith(low, Png)
  }

  /** The name used when none is supplied: `qr_code_<YYYYMMDD_HHMMSS>.png`,
      27 characters in all. */
  function DefaultName(now: Timestamp): (name: string)
    requires ValidTimestamp(now)
    ensures |name| == 27
    ensures StartsWith(name, DefaultPrefix) && EndsWith(name, Png)
    ensures name[8..23] == FormatTimestamp(now)
  {
    var name := DefaultPrefix + FormatTimestamp(now) + Png;
    assert name[8..23] == FormatTimestamp(now);
    name
  }

  /** Two different clock readings give two different default names. */
  lemma DefaultNameInjective(t1: Timestamp, t2: Timestamp)
    requires ValidTimestamp(t1) && ValidTimestamp(t2)
    requires DefaultName(t1) == DefaultName(t2)
    ensures t1 == t2
  {
    ParseFormatTimestamp(t1);
    ParseFormatTimestamp(t2);
  }

  lemma LowerOfPng()
    ensures Lower(Png) == Png
  {
  }

  /** A name ending in `.png` in any letter case is kept as it is; any
      other name gets `.png` appended, once. The supplied name is always
      a prefix of the result, so its letter case is preserved. */
  function EnsurePngExtension(name: string): (r: string)
    ensures HasPngExtension(r)
    ensures StartsWith(r, name)
    ensures HasPngExtension(name) ==> r == name
    ensures !HasPngExtension(name) ==> r == name + Png
  {
    if HasPngExtension(name) then name
    else
      var r := name + Png;
      assert r[|r| - 4..] == Png;
      r
  }

  /** The resolution step of `generate_qr_code`: the default name when
      none is given, then the extension rule. */
  function ResolveFilename(name: Option<string>, now: Timestamp): (r: string)
    requires name.None? ==> ValidTimestamp(now)
    ensures HasPngExtension(r)
    ensures name.Some? ==> StartsWith(r, name.value)
  {
    var candidate := if name.None? then DefaultName(now) else name.value;
    EnsurePngExtension(candidate)
  }

  /** With no name supplied the result is exactly the default name: the
      extension check does not add a second `.png`. */
  lemma DefaultNameIsFinal(now: Timestamp)
    requires ValidTimestamp(now)
    ensures ResolveFilename(None, now) == DefaultName(now)
    ensures HasPngExtension(DefaultName(now))
  {
    var name := DefaultName(now);
    var front := DefaultPrefix + FormatTimestamp(now);
    assert name == front + Png;
    LowerAppend(front, Png);
    LowerOfPng();
  }

  /** A supplied name is returned unchanged when it already ends in
      `.png` in any letter case, and otherwise gets exactly `.png`
      appended, four characters and no more. */
  lemma SuppliedNameResolution(name: string, now: Timestamp)
    ensures HasPngExtension(name) ==> ResolveFilename(Some(name), now) == name
    ensures !HasPngExtension(name) ==>
      ResolveFilename(Some(name), now) == name + ".png" && |ResolveFilename(Some(name), now)| == |name| + 4
  {
  }

  /** Resolving an already-resolved name changes nothing, whatever the time. */
  lemma ResolveFilenameIdempotent(name: Option<string>, now: Timestamp, later: Timestamp)
    requires name.None? ==> ValidTimestamp(now)
    ensures ResolveFilename(Some(ResolveFilename(name, now)), later) == ResolveFilename(name, now)
  {
  }

  /** An upper-case extension is recognised and kept as written. */
  lemma UpperCaseExtensionKept(stem: string, now: Timestamp)
    ensures ResolveFilename(Some(stem + ".PNG"), now) == stem + ".PNG"
  {
    var name := stem + ".PNG";
    LowerAppend(stem, ".PNG");
    assert Lower(".PNG") == Png;
    assert Lower(name)[|name| - 4..] == Png;
  }

  /** A name without an extension gets `.png`. */
  lemma MissingExtensionAdded()
    ensures EnsurePngExtension("mycode") == "mycode.png"
  {
    var n := "mycode";
    assert !HasPngExtension(n) by {
      assert Lower(n)[|n| - 4..][0] == 'c';
    }
  }
}
