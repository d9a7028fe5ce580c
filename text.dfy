/** The string operations the components rely on: `String.prototype.trim`,
    `toLowerCase`, the rendering of integers, `padStart(2, '0')`, the
    truncating `%` of JavaScript, and a reader that recovers the number of
    minutes or seconds from every text the formatters produce. */
module Text {
  import opened Wrappers
  import opened Sequences

  // ---------------------------------------------------------------------------
  // trim

  /** The WhiteSpace and LineTerminator code points that `trim` removes. */
  const SpaceChars: set<char> := {
    ' ', '\t', '\n', '\U{B}', '\U{C}', '\r', '\U{A0}', '\U{1680}',
    '\U{2000}', '\U{2001}', '\U{2002}', '\U{2003}', '\U{2004}', '\U{2005}',
    '\U{2006}', '\U{2007}', '\U{2008}', '\U{2009}', '\U{200A}',
    '\U{2028}', '\U{2029}', '\U{202F}', '\U{205F}', '\U{3000}', '\U{FEFF}'}

  predicate IsSpace(c: char) {
    c in SpaceChars
  }

  predicate AllSpace(s: string) {
    forall i :: 0 <= i < |s| ==> IsSpace(s[i])
  }

  /** Drops the leading white space: the result is the suffix of `s` that
      starts at its first non-space character. */
  function TrimStart(s: string): (r: string)
    ensures |r| <= |s| && r == s[|s| - |r|..]
    ensures AllSpace(s[..|s| - |r|])
    ensures r != [] ==> !IsSpace(r[0])
  {
    if |s| > 0 && IsSpace(s[0]) then
      var r := TrimStart(s[1..]);
      SpaceBeforeSuffix(s, r);
      r
    else s
  }

  /** A space followed by a run of spaces is a run of spaces, and the
      suffix after it is the same suffix of the tail. */
  lemma SpaceBeforeSuffix(s: string, r: string)
    requires s != [] && IsSpace(s[0])
    requires |r| <= |s[1..]| && r == s[1..][|s[1..]| - |r|..] && AllSpace(s[1..][..|s[1..]| - |r|])
    ensures |r| <= |s| && r == s[|s| - |r|..] && AllSpace(s[..|s| - |r|])
  {
    var n := |s| - |r|;
    assert s[1..][n - 1..] == s[n..];
    forall i | 0 <= i < n ensures IsSpace(s[..n][i]) {
      if i > 0 {
        assert s[..n][i] == s[1..][..n - 1][i - 1];
      }
    }
  }

  /** Drops the trailing white space: the result is the prefix of `s` that
      ends at its last non-space character. */
  function TrimEnd(s: string): (r: string)
    ensures |r| <= |s| && r == s[..|r|]
    ensures AllSpace(s[|r|..])
    ensures r != [] ==> !IsSpace(r[|r| - 1])
  {
    if |s| > 0 && IsSpace(s[|s| - 1]) then
      var r := TrimEnd(s[..|s| - 1]);
      assert s[..|s| - 1][..|r|] == s[..|r|];
      assert s[|r|..] == s[..|s| - 1][|r|..] + [s[|s| - 1]];
      r
    else s
  }

  /** `s.trim()` */
  function Trim(s: string): string {
    TrimEnd(TrimStart(s))
  }

  /** What `trim` promises: the result neither starts nor ends with white
      space. */
  lemma TrimShape(s: string)
    ensures Trim(s) != [] ==> !IsSpace(Trim(s)[0]) && !IsSpace(Trim(s)[|Trim(s)| - 1])
  {
    var t := TrimStart(s);
    var r := TrimEnd(t);
    if r != [] {
      assert r[0] == t[0];
    }
  }

  /** A text that neither starts nor ends with white space is its own
      trimmed text. */
  lemma TrimKeepsCore(s: string)
    requires s != [] ==> !IsSpace(s[0]) && !IsSpace(s[|s| - 1])
    ensures Trim(s) == s
  {
    assert TrimStart(s) == s;
  }

  lemma {:induction false} TrimStartSkipsSpace(w: string, s: string)
    requires AllSpace(w)
    ensures TrimStart(w + s) == TrimStart(s)
  {
    if w != [] {
      assert (w + s)[1..] == w[1..] + s;
      TrimStartSkipsSpace(w[1..], s);
    } else {
      assert w + s == s;
    }
  }

  lemma {:induction false} TrimEndSkipsSpace(s: string, w: string)
    requires AllSpace(w)
    ensures TrimEnd(s + w) == TrimEnd(s)
  {
    if w != [] {
      var w' := w[..|w| - 1];
      assert (s + w)[..|s + w| - 1] == s + w';
      TrimEndSkipsSpace(s, w');
    } else {
      assert s + w == s;
    }
  }

  /** Trailing white space is kept by TrimStart, unless everything before
      it is white space too. */
  lemma {:induction false} TrimStartBeforeSpace(s: string, w: string)
    requires AllSpace(w)
    ensures TrimStart(s + w) == if TrimStart(s) == [] then [] else TrimStart(s) + w
  {
    if s == [] {
      assert s + w == w + [];
      TrimStartSkipsSpace(w, []);
    } else if IsSpace(s[0]) {
      assert (s + w)[1..] == s[1..] + w;
      TrimStartBeforeSpace(s[1..], w);
    }
  }

  /** Surrounding white space does not change the trimmed text. */
  lemma TrimIgnoresPadding(w1: string, s: string, w2: string)
    requires AllSpace(w1) && AllSpace(w2)
    ensures Trim(w1 + s + w2) == Trim(s)
  {
    Associative(w1, s, w2);
    TrimStartSkipsSpace(w1, s + w2);
    TrimStartBeforeSpace(s, w2);
    if TrimStart(s) != [] {
      TrimEndSkipsSpace(TrimStart(s), w2);
    }
  }

  // ---------------------------------------------------------------------------
  // toLowerCase

  /** Upper-case letters of Basic Latin and Latin-1 (the latter covers the
      accented capitals of Portuguese names). */
  predicate IsUpper(c: char) {
    ('A' <= c <= 'Z') || ('\U{C0}' <= c <= '\U{DE}' && c != '\U{D7}')
  }

  function LowerChar(c: char): (d: char)
    ensures IsSpace(d) <==> IsSpace(c)
    ensures !IsUpper(d)
  {
    if IsUpper(c) then (c as int + 32) as char else c
  }

  /** `s.toLowerCase()` restricted to Basic Latin and Latin-1. */
  function ToLower(s: string): (r: string)
    ensures |r| == |s|
    ensures forall i :: 0 <= i < |s| ==> r[i] == LowerChar(s[i])
  {
    seq(|s|, i requires 0 <= i < |s| => LowerChar(s[i]))
  }

  lemma ToLowerAppend(a: string, b: string)
    ensures ToLower(a + b) == ToLower(a) + ToLower(b)
  {
    assert ToLower(a + b) == ToLower(a) + ToLower(b);
  }

  lemma ToLowerIdempotent(s: string)
    ensures ToLower(ToLower(s)) == ToLower(s)
  {
  }

  lemma ToLowerKeepsSpace(w: string)
    requires AllSpace(w)
    ensures ToLower(w) == w
  {
  }

  lemma {:induction false} TrimStartLowerCommute(s: string)
    ensures TrimStart(ToLower(s)) == ToLower(TrimStart(s))
  {
    if |s| > 0 && IsSpace(s[0]) {
      assert ToLower(s)[1..] == ToLower(s[1..]);
      TrimStartLowerCommute(s[1..]);
    }
  }

  lemma {:induction false} TrimEndLowerCommute(s: string)
    ensures TrimEnd(ToLower(s)) == ToLower(TrimEnd(s))
  {
    if |s| > 0 && IsSpace(s[|s| - 1]) {
      assert ToLower(s)[..|s| - 1] == ToLower(s[..|s| - 1]);
      TrimEndLowerCommute(s[..|s| - 1]);
    }
  }

  /** Lower-casing and trimming commute, so `name.toLowerCase().trim()` is
      the lower-cased trimmed name. */
  lemma TrimLowerCommute(s: string)
    ensures Trim(ToLower(s)) == ToLower(Trim(s))
  {
    TrimStartLowerCommute(s);
    TrimEndLowerCommute(TrimStart(s));
  }

  // ---------------------------------------------------------------------------
  // integers as text

  predicate IsDigit(c: char) {
    '0' <= c <= '9'
  }

  predicate AllDigits(s: string) {
    forall i :: 0 <= i < |s| ==> IsDigit(s[i])
  }

  function DigitValue(c: char): nat
    requires IsDigit(c)
  {
    c as int - '0' as int
  }

  function DigitChar(d: nat): (c: char)
    requires d < 10
    ensures IsDigit(c) && DigitValue(c) == d
  {
    ('0' as int + d) as char
  }

  /** Decimal rendering of a natural number, without leading zeros. */
  function NatToString(n: nat): (r: string)
    ensures r != [] && AllDigits(r)
    ensures |r| > 1 ==> r[0] != '0'
  {
    if n < 10 then [DigitChar(n)] else NatToString(n / 10) + [DigitChar(n % 10)]
  }

  /** How JavaScript renders an integer-valued number: a minus sign, then
      the decimal digits. */
  function IntToString(i: int): string {
    if i < 0 then "-" + NatToString(-i) else NatToString(i)
  }

  /** The number a string of decimal digits denotes. */
  function DigitsValue(s: string): nat
    requires AllDigits(s)
  {
    if s == [] then 0 else DigitsValue(s[..|s| - 1]) * 10 + DigitValue(s[|s| - 1])
  }

  lemma {:induction false} NatToStringValue(n: nat)
    ensures DigitsValue(NatToString(n)) == n
  {
    if n >= 10 {
      var s := NatToString(n / 10) + [DigitChar(n % 10)];
      assert s[..|s| - 1] == NatToString(n / 10);
      NatToStringValue(n / 10);
    }
  }

  /** `s.padStart(2, '0')` */
  function PadStart2(s: string): (r: string)
    ensures |r| >= 2 && |r| >= |s| && r[|r| - |s|..] == s
  {
    if |s| == 0 then "00" else if |s| == 1 then "0" + s else s
  }

  lemma {:induction false} LeadingZeroValue(s: string)
    requires AllDigits(s)
    ensures AllDigits("0" + s) && DigitsValue("0" + s) == DigitsValue(s)
  {
    if s != [] {
      var t := "0" + s;
      assert t[..|t| - 1] == "0" + s[..|s| - 1];
      LeadingZeroValue(s[..|s| - 1]);
    }
  }

  /** The truncating remainder of JavaScript's `%` (the sign follows the
      dividend), for a positive divisor. */
  function TruncRem(a: int, b: int): (r: int)
    requires b > 0
    ensures -b < r < b
    ensures a >= 0 ==> r == a % b
    ensures a < 0 ==> r <= 0
  {
    if a >= 0 then a % b else -((-a) % b)
  }

  // ---------------------------------------------------------------------------
  // reading the formatted texts back

  /** The length of the longest digit prefix of `s`. */
  function LeadingDigits(s: string): (k: nat)
    ensures k <= |s| && AllDigits(s[..k])
    ensures k < |s| ==> !IsDigit(s[k])
  {
    if |s| > 0 && IsDigit(s[0]) then 1 + LeadingDigits(s[1..]) else 0
  }

  /** At least one digit at the front of `s`: the number they denote and
      the rest of the string. */
  function SplitUnsigned(s: string): Option<(int, string)> {
    var k := LeadingDigits(s);
    if k == 0 then None else Some((DigitsValue(s[..k]) as int, s[k..]))
  }

  function Negated(r: Option<(int, string)>): Option<(int, string)> {
    match r
    case None => None
    case Some((n, rest)) => Some((-n, rest))
  }

  /** An optional minus sign and at least one digit at the front of `s`:
      the number they denote and the rest of the string. */
  function SplitNumber(s: string): Option<(int, string)> {
    if |s| > 0 && s[0] == '-' then Negated(SplitUnsigned(s[1..])) else SplitUnsigned(s)
  }

  predicate StartsWithNonDigit(rest: string) {
    rest == [] || !IsDigit(rest[0])
  }

  lemma {:induction false} LeadingDigitsOf(d: string, rest: string)
    requires AllDigits(d) && StartsWithNonDigit(rest)
    ensures LeadingDigits(d + rest) == |d|
  {
    if d == [] {
      assert d + rest == rest;
    } else {
      assert (d + rest)[1..] == d[1..] + rest;
      LeadingDigitsOf(d[1..], rest);
    }
  }

  lemma SplitDigits(d: string, rest: string)
    requires d != [] && AllDigits(d) && StartsWithNonDigit(rest)
    ensures SplitUnsigned(d + rest) == Some((DigitsValue(d) as int, rest))
  {
    var s := d + rest;
    LeadingDigitsOf(d, rest);
    assert s[..|d|] == d && s[|d|..] == rest;
  }

  lemma SplitDigitsNumber(d: string, rest: string)
    requires d != [] && AllDigits(d) && StartsWithNonDigit(rest)
    ensures SplitNumber(d + rest) == Some((DigitsValue(d) as int, rest))
  {
    SplitDigits(d, rest);
    assert (d + rest)[0] == d[0];
  }

  lemma SplitInt(i: int, rest: string)
    requires StartsWithNonDigit(rest)
    ensures SplitNumber(IntToString(i) + rest) == Some((i, rest))
  {
    if i < 0 {
      var d := NatToString(-i);
      SplitNegative(d, rest);
      NatToStringValue(-i);
      Associative("-", d, rest);
    } else {
      SplitDigitsNumber(NatToString(i), rest);
      NatToStringValue(i);
    }
  }

  lemma SplitNegative(d: string, rest: string)
    requires d != [] && AllDigits(d) && StartsWithNonDigit(rest)
    ensures SplitNumber("-" + (d + rest)) == Some((-(DigitsValue(d) as int), rest))
  {
    SplitDigits(d, rest);
    SplitMinus(d + rest);
  }

  lemma SplitMinus(s: string)
    ensures SplitNumber("-" + s) == Negated(SplitUnsigned(s))
  {
    assert ("-" + s)[1..] == s;
  }

  /** Reads a duration text back into minutes. Accepted shapes:
      "<n> min", "<n>min", "<h>h" and "<h>h <m>min". */
  function ReadDuration(s: string): Option<int> {
    match SplitNumber(s)
    case None => None
    case Some((n, rest)) =>
      if rest == " min" || rest == "min" then Some(n)
      else if rest == "h" then Some(60 * n)
      else if |rest| >= 2 && rest[..2] == "h " then
        match SplitNumber(rest[2..])
        case Some((m, tail)) => if tail == "min" then Some(60 * n + m) else None
        case None => None
      else None
  }

  lemma ReadAfterHours(s: string, h: int, tail: string, m: int)
    requires SplitNumber(s) == Some((h, "h " + tail))
    requires SplitNumber(tail) == Some((m, "min"))
    ensures ReadDuration(s) == Some(60 * h + m)
  {
    var rest := "h " + tail;
    assert |tail| >= 3;
    assert rest[..2] == "h " && rest[2..] == tail;
  }

  /** The text "<h>h <m>min" is read back as h * 60 + m. */
  lemma ReadHoursMinutes(h: int, m: int)
    ensures ReadDuration(IntToString(h) + "h " + IntToString(m) + "min") == Some(60 * h + m)
  {
    var tail := IntToString(m) + "min";
    var s := IntToString(h) + "h " + IntToString(m) + "min";
    Associative(IntToString(h) + "h ", IntToString(m), "min");
    Associative(IntToString(h), "h ", tail);
    SplitInt(h, "h " + tail);
    SplitInt(m, "min");
    ReadAfterHours(s, h, tail, m);
  }

  lemma ReadHours(h: int)
    ensures ReadDuration(IntToString(h) + "h") == Some(60 * h)
  {
    SplitInt(h, "h");
  }

  lemma ReadMinutes(m: int, unit: string)
    requires unit == " min" || unit == "min"
    ensures ReadDuration(IntToString(m) + unit) == Some(m)
  {
    SplitInt(m, unit);
  }

  /** Reads a "MM:SS" clock text back into seconds. */
  function ReadClock(s: string): Option<int> {
    match SplitNumber(s)
    case Some((m, rest)) =>
      if |rest| == 3 && rest[0] == ':' && AllDigits(rest[1..]) && m >= 0
      then Some(60 * m + DigitsValue(rest[1..]))
      else None
    case None => None
  }

  lemma ClockSplit(mins: string, secs: string)
    requires mins != [] && AllDigits(mins)
    ensures SplitNumber(mins + ":" + secs) == Some((DigitsValue(mins) as int, ":" + secs))
  {
    var rest := ":" + secs;
    assert mins + ":" + secs == mins + rest;
    assert StartsWithNonDigit(rest);
    SplitDigitsNumber(mins, rest);
  }

  /** A number below 100 pads to exactly two digits. */
  lemma PaddedTwoDigits(n: nat)
    requires n < 100
    ensures |PadStart2(NatToString(n))| == 2
  {
    if n >= 10 {
      assert n / 10 < 10;
      assert NatToString(n) == [DigitChar(n / 10)] + [DigitChar(n % 10)];
    }
  }

  /** Minutes digits, a colon and two seconds digits read back as the
      seconds they stand for. */
  lemma ReadClockOf(mins: string, secs: string, m: nat, v: nat)
    requires mins != [] && AllDigits(mins) && AllDigits(secs) && |secs| == 2
    requires DigitsValue(mins) == m && DigitsValue(secs) == v
    ensures ReadClock(mins + ":" + secs) == Some(60 * m + v)
  {
    ClockSplit(mins, secs);
    var rest := ":" + secs;
    assert rest[1..] == secs;
    assert |rest| == 3 && rest[0] == ':' && AllDigits(rest[1..]);
    assert DigitsValue(rest[1..]) == DigitsValue(secs);
  }

  lemma PaddedValue(n: nat)
    ensures AllDigits(PadStart2(NatToString(n)))
    ensures DigitsValue(PadStart2(NatToString(n))) == n
  {
    var d := NatToString(n);
    NatToStringValue(n);
    if |d| == 1 {
      LeadingZeroValue(d);
    }
  }

  /** The compact duration text of the history and the week card: with
      `Math.floor(m / 60)` hours above zero "<h>h <m>min", otherwise
      "<m>min", minutes by JavaScript's `%`. */
  function CompactDuration(minutes: int): string {
    var hours := minutes / 60;
    var mins := TruncRem(minutes, 60);
    if hours > 0 then IntToString(hours) + "h " + IntToString(mins) + "min" else IntToString(mins) + "min"
  }

  /** The text shows the minutes exactly for every input above -60; below
      that the hours are dropped. */
  lemma CompactDurationRoundTrip(minutes: int)
    ensures minutes > -60 ==> ReadDuration(CompactDuration(minutes)) == Some(minutes)
    ensures minutes <= -60 ==> ReadDuration(CompactDuration(minutes)) == Some(TruncRem(minutes, 60))
  {
    if minutes / 60 > 0 {
      CompactHours(minutes);
    } else {
      CompactMinutes(minutes);
    }
  }

  /** For a non-negative dividend, floor hours and truncated minutes add
      back up to the total. */
  lemma HoursAndMinutes(total: int)
    requires total >= 0
    ensures 60 * (total / 60) + TruncRem(total, 60) == total
  {
  }

  lemma CompactHours(minutes: int)
    requires minutes / 60 > 0
    ensures ReadDuration(CompactDuration(minutes)) == Some(minutes)
  {
    var h, m := minutes / 60, TruncRem(minutes, 60);
    HoursAndMinutes(minutes);
    assert 60 * h + m == minutes;
    assert CompactDuration(minutes) == IntToString(h) + "h " + IntToString(m) + "min";
    ReadHoursMinutes(h, m);
  }

  lemma CompactMinutes(minutes: int)
    requires minutes / 60 <= 0
    ensures ReadDuration(CompactDuration(minutes)) == Some(TruncRem(minutes, 60))
    ensures minutes > -60 ==> TruncRem(minutes, 60) == minutes
  {
    var m := TruncRem(minutes, 60);
    assert CompactDuration(minutes) == IntToString(m) + "min";
    ReadMinutes(m, "min");
    if minutes > -60 {
      BelowAnHour(minutes);
    }
  }

  lemma BelowAnHour(minutes: int)
    requires -60 < minutes && minutes / 60 <= 0
    ensures TruncRem(minutes, 60) == minutes
  {
    if minutes < 0 {
      assert (-minutes) % 60 == -minutes;
    }
  }

  // ---------------------------------------------------------------------------
  // joining and splitting on a one-character separator

  /** `parts.join(sep)` */
  function Join(parts: seq<string>, sep: char): string
    decreases |parts|
  {
    if |parts| == 0 then "" else if |parts| == 1 then parts[0] else parts[0] + [sep] + Join(parts[1..], sep)
  }

  /** `s.split(sep)`: the pieces between separators, at least one. */
  function Split(s: string, sep: char): (r: seq<string>)
    ensures |r| >= 1
    decreases |s|
  {
    if s == [] then [""]
    else
      var rest := Split(s[1..], sep);
      if s[0] == sep then [""] + rest else [[s[0]] + rest[0]] + rest[1..]
  }

  /** A prefix free of separators joins the first piece of what follows. */
  lemma {:induction false} SplitPrefix(a: string, b: string, sep: char)
    requires sep !in a
    ensures Split(a + b, sep) == [a + Split(b, sep)[0]] + Split(b, sep)[1..]
    decreases |a|
  {
    if a == [] {
      assert a + b == b;
      assert a + Split(b, sep)[0] == Split(b, sep)[0];
      assert Split(b, sep) == [Split(b, sep)[0]] + Split(b, sep)[1..];
    } else {
      assert (a + b)[1..] == a[1..] + b;
      assert a[0] in a;
      SplitPrefix(a[1..], b, sep);
      assert [a[0]] + (a[1..] + Split(b, sep)[0]) == a + Split(b, sep)[0];
    }
  }

  /** Splitting undoes joining when no part holds the separator. */
  lemma {:induction false} SplitJoin(parts: seq<string>, sep: char)
    requires |parts| >= 1
    requires forall k :: 0 <= k < |parts| ==> sep !in parts[k]
    ensures Split(Join(parts, sep), sep) == parts
    decreases |parts|
  {
    if |parts| == 1 {
      SplitPrefix(parts[0], "", sep);
      assert parts[0] + "" == parts[0];
    } else {
      var rest := Join(parts[1..], sep);
      SplitJoin(parts[1..], sep);
      assert parts[0] + [sep] + rest == parts[0] + ([sep] + rest);
      SplitPrefix(parts[0], [sep] + rest, sep);
      assert ([sep] + rest)[1..] == rest;
      assert Split([sep] + rest, sep) == [""] + parts[1..];
      assert parts[0] + "" == parts[0];
      assert parts == [parts[0]] + parts[1..];
    }
  }

  /** Joining one more part at the end. */
  lemma {:induction false} JoinSnoc(parts: seq<string>, last: string, sep: char)
    requires |parts| >= 1
    ensures Join(parts + [last], sep) == Join(parts, sep) + [sep] + last
    decreases |parts|
  {
    if |parts| == 1 {
      assert parts + [last] == [parts[0], last];
    } else {
      assert (parts + [last])[1..] == parts[1..] + [last];
      JoinSnoc(parts[1..], last, sep);
    }
  }

  /** No decimal rendering holds a character other than '-' and digits. */
  lemma IntToStringChars(i: int, c: char)
    requires c != '-' && !IsDigit(c)
    ensures c !in IntToString(i)
  {
    var d := if i < 0 then NatToString(-i) else NatToString(i);
    assert c !in d;
  }
}
