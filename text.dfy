/** The parts of Go's `strings`, `unicode` and `fmt` packages that the event log
    relies on: whitespace, trimming, field splitting, joining, decimal rendering
    with `%v` and `%0Nd`, and decimal scanning with `%d`. Strings are sequences of
    Unicode scalar values. */
module Text {
  import opened Wrappers

  const MinInt64: int := -0x8000_0000_0000_0000
  const MaxInt64: int := 0x7FFF_FFFF_FFFF_FFFF

  /** `unicode.IsSpace`: the Latin-1 spaces and the other White_Space code points. */
  predicate IsSpace(c: char)
  {
    c == ' ' || c == '\t' || c == '\n' || c == '\U{000B}' || c == '\U{000C}' || c == '\r'
    || c == '\U{0085}' || c == '\U{00A0}' || c == '\U{1680}'
    || ('\U{2000}' <= c <= '\U{200A}')
    || c == '\U{2028}' || c == '\U{2029}' || c == '\U{202F}' || c == '\U{205F}' || c == '\U{3000}'
  }

  predicate IsDigit(c: char) { '0' <= c <= '9' }

  predicate AllDigits(s: string) { forall i :: 0 <= i < |s| ==> IsDigit(s[i]) }

  predicate NoSpace(s: string) { forall i :: 0 <= i < |s| ==> !IsSpace(s[i]) }

  function DigitValue(c: char): nat
    requires IsDigit(c)
  {
    c as int - '0' as int
  }

  function DigitChar(n: nat): (c: char)
    requires n < 10
    ensures IsDigit(c) && DigitValue(c) == n
  {
    ('0' as int + n) as char
  }

  /** The value of a string of decimal digits, most significant first. */
  function DigitsValue(s: string): nat
    requires AllDigits(s)
  {
    if s == [] then 0 else DigitsValue(s[..|s| - 1]) * 10 + DigitValue(s[|s| - 1])
  }

  function Pow10(n: nat): (p: nat)
    ensures p >= 1
  {
    if n == 0 then 1 else 10 * Pow10(n - 1)
  }

  /** A string of `n` digits has a value below 10^n. */
  lemma {:induction false} DigitsValueBound(s: string)
    requires AllDigits(s)
    ensures DigitsValue(s) < Pow10(|s|)
  {
    if s != [] {
      DigitsValueBound(s[..|s| - 1]);
    }
  }

  // ---------------------------------------------------------------------------
  // Trimming, fields and joining

  /** `strings.TrimLeft(s, unicode spaces)`. */
  function TrimLeft(s: string): (t: string)
    ensures |t| <= |s|
    ensures t == [] || !IsSpace(t[0])
  {
    if s != [] && IsSpace(s[0]) then TrimLeft(s[1..]) else s
  }

  /** `strings.TrimRight(s, unicode spaces)`. */
  function TrimRight(s: string): (t: string)
    ensures |t| <= |s|
    ensures t == [] || !IsSpace(t[|t| - 1])
  {
    if s != [] && IsSpace(s[|s| - 1]) then TrimRight(s[..|s| - 1]) else s
  }

  /** Trimming the right end keeps a prefix of the string. */
  lemma {:induction false} TrimRightKeepsPrefix(s: string)
    ensures TrimRight(s) == s[..|TrimRight(s)|]
  {
    if s != [] && IsSpace(s[|s| - 1]) {
      TrimRightKeepsPrefix(s[..|s| - 1]);
    }
  }

  /** Trimming the left end drops a run of whitespace from the front. */
  lemma {:induction false} TrimLeftDrops(s: string)
    ensures TrimLeft(s) == s[|s| - |TrimLeft(s)|..]
    ensures forall i :: 0 <= i < |s| - |TrimLeft(s)| ==> IsSpace(s[i])
  {
    if s != [] && IsSpace(s[0]) {
      TrimLeftDrops(s[1..]);
      assert s[1..][|s| - 1 - |TrimLeft(s[1..])|..] == s[|s| - |TrimLeft(s)|..];
    }
  }

  /** Trimming the right end drops a run of whitespace from the back. */
  lemma {:induction false} TrimRightDrops(s: string)
    ensures TrimRight(s) == s[..|TrimRight(s)|]
    ensures forall i :: |TrimRight(s)| <= i < |s| ==> IsSpace(s[i])
  {
    if s != [] && IsSpace(s[|s| - 1]) {
      TrimRightDrops(s[..|s| - 1]);
    }
  }

  /** `strings.TrimSpace` removes exactly the leading and the trailing whitespace:
      the result sits in `s` after a run of whitespace of length `k` and is
      followed only by whitespace. */
  lemma TrimSpaceParts(s: string)
    ensures var t := TrimSpace(s); var k := |s| - |TrimLeft(s)|;
      k + |t| <= |s| && s[k..k + |t|] == t
      && (forall i :: 0 <= i < k ==> IsSpace(s[i]))
      && (forall i :: k + |t| <= i < |s| ==> IsSpace(s[i]))
  {
    var u := TrimLeft(s);
    TrimLeftDrops(s);
    TrimRightDrops(u);
    SpacesAfter(s, |s| - |u|, u, |TrimRight(u)|);
  }

  /** Facts about the suffix `u` of `s` from position `k` carry over to `s`. */
  lemma SpacesAfter(s: string, k: nat, u: string, n: nat)
    requires k <= |s| && s[k..] == u && n <= |u|
    requires forall i :: n <= i < |u| ==> IsSpace(u[i])
    ensures s[k..k + n] == u[..n]
    ensures forall i :: k + n <= i < |s| ==> IsSpace(s[i])
  {
    forall i | k + n <= i < |s|
      ensures IsSpace(s[i])
    {
      assert s[i] == u[i - k];
    }
  }

  /** Trimming text that starts with a non-space character keeps that character
      in front. */
  lemma TrimSpaceKeepsFirst(s: string)
    requires s != [] && !IsSpace(s[0])
    ensures TrimSpace(s) != [] && TrimSpace(s)[0] == s[0]
  {
    TrimRightDrops(s);
  }

  /** `strings.TrimSpace`. */
  function TrimSpace(s: string): (t: string)
    ensures t == [] || (!IsSpace(t[0]) && !IsSpace(t[|t| - 1]))
  {
    TrimRightKeepsPrefix(TrimLeft(s));
    TrimRight(TrimLeft(s))
  }

  /** The longest prefix of `s` without whitespace. */
  function Word(s: string): (w: string)
    ensures |w| <= |s| && w == s[..|w|] && NoSpace(w)
    ensures |w| == |s| || IsSpace(s[|w|])
  {
    if s == [] || IsSpace(s[0]) then [] else [s[0]] + Word(s[1..])
  }

  /** `strings.Fields`: the maximal runs of non-whitespace characters, in order. */
  function Fields(s: string): (fs: seq<string>)
    ensures forall i :: 0 <= i < |fs| ==> fs[i] != [] && NoSpace(fs[i])
    decreases |s|
  {
    if s == [] then []
    else if IsSpace(s[0]) then Fields(s[1..])
    else
      var w := Word(s);
      [w] + Fields(s[|w|..])
  }

  /** `strings.Join`. */
  function Join(words: seq<string>, sep: string): string
  {
    if words == [] then []
    else if |words| == 1 then words[0]
    else words[0] + sep + Join(words[1..], sep)
  }

  /** The index of the first occurrence of `c` in `s`. */
  function IndexOf(s: string, c: char): (i: nat)
    requires c in s
    ensures i < |s| && s[i] == c && c !in s[..i]
  {
    if s[0] == c then 0 else 1 + IndexOf(s[1..], c)
  }

  /** `strings.Split(s, string(sep))`: the pieces between the separators; there is
      always one more piece than there are separators. */
  function Split(s: string, sep: char): (parts: seq<string>)
    ensures |parts| >= 1
    ensures forall i :: 0 <= i < |parts| ==> sep !in parts[i]
    decreases |s|
  {
    if sep !in s then [s]
    else
      var i := IndexOf(s, sep);
      [s[..i]] + Split(s[i + 1..], sep)
  }

  /** Joining the pieces of a split with the separator gives the text back. */
  lemma {:induction false} SplitJoin(s: string, sep: char)
    ensures Join(Split(s, sep), [sep]) == s
    decreases |s|
  {
    if sep in s {
      var i := IndexOf(s, sep);
      var tail := Split(s[i + 1..], sep);
      SplitJoin(s[i + 1..], sep);
      var parts := [s[..i]] + tail;
      assert parts[0] == s[..i] && parts[1..] == tail;
      assert Join(parts, [sep]) == s[..i] + [sep] + s[i + 1..];
      assert s == s[..i] + [sep] + s[i + 1..];
    }
  }

  // ---------------------------------------------------------------------------
  // UTF-8

  /** The number of bytes UTF-8 takes for `c`. */
  function Utf8Length(c: char): (n: nat)
    ensures 1 <= n <= 4
  {
    if c as int < 0x80 then 1
    else if c as int < 0x800 then 2
    else if c as int < 0x1_0000 then 3
    else 4
  }

  /** What Go's byte slice `s[1:]` leaves of the first character `c`: nothing for
      ASCII, otherwise the remaining bytes of its encoding, which are not valid
      UTF-8 on their own and each read as U+FFFD. */
  function LeftoverBytes(c: char): (r: string)
    ensures r == [] <==> c as int < 0x80
    ensures forall i :: 0 <= i < |r| ==> r[i] == '\U{FFFD}'
  {
    seq(Utf8Length(c) - 1, _ => '\U{FFFD}')
  }

  // ---------------------------------------------------------------------------
  // Decimal rendering

  /** The shortest decimal rendering of `n`. */
  function Decimal(n: nat): (s: string)
    ensures s != [] && AllDigits(s)
  {
    if n < 10 then [DigitChar(n)] else Decimal(n / 10) + [DigitChar(n % 10)]
  }

  /** `fmt`'s `%v` / `%d` rendering of an integer. */
  function IntToString(n: int): string
  {
    if n < 0 then "-" + Decimal(-n) else Decimal(n)
  }

  function Zeros(n: nat): (s: string)
    ensures |s| == n && forall i :: 0 <= i < n ==> s[i] == '0'
  {
    if n == 0 then [] else "0" + Zeros(n - 1)
  }

  /** `fmt`'s `%0<width>d`: digits padded with zeros to `width` characters, the
      sign counting towards the width; wider numbers are not cut. */
  function PadInt(n: int, width: nat): string
  {
    var digits := Decimal(if n < 0 then -n else n);
    var room := if n < 0 && width > 0 then width - 1 else width;
    if n < 0 then "-" + ZeroPad(digits, room) else ZeroPad(digits, room)
  }

  /** `digits` with zeros in front up to `room` characters. */
  function ZeroPad(digits: string, room: nat): string
  {
    if |digits| >= room then digits else Zeros(room - |digits|) + digits
  }

  /** The padded text is at least `width` wide and reads back as `n`: digits for
      a number that is not negative, a minus sign and digits otherwise. */
  lemma PadIntValue(n: int, width: nat)
    ensures var s := PadInt(n, width);
      |s| >= width
      && (n >= 0 ==> AllDigits(s) && DigitsValue(s) == n)
      && (n < 0 ==> |s| > 1 && s[0] == '-' && AllDigits(s[1..]) && DigitsValue(s[1..]) == -n)
  {
    if n >= 0 {
      PadNatural(n, width);
    } else {
      PadNegative(n, width);
    }
  }

  lemma PadNatural(n: nat, width: nat)
    ensures var s := PadInt(n, width);
      |s| >= width && AllDigits(s) && DigitsValue(s) == n
  {
    DecimalValue(n);
    PaddedValue(Decimal(n), width);
  }

  lemma PadNegative(n: int, width: nat)
    requires n < 0
    ensures var s := PadInt(n, width);
      |s| >= width && |s| > 1 && s[0] == '-' && AllDigits(s[1..]) && DigitsValue(s[1..]) == -n
  {
    var room := if width > 0 then width - 1 else width;
    DecimalValue(-n);
    PaddedValue(Decimal(-n), room);
    SignThenDigits(PadInt(n, width), ZeroPad(Decimal(-n), room));
  }

  lemma SignThenDigits(s: string, digits: string)
    requires s == "-" + digits
    ensures |s| == |digits| + 1 && s[0] == '-' && s[1..] == digits
  {
  }

  /** Padding with zeros to `room` characters keeps the value. */
  lemma PaddedValue(d: string, room: nat)
    requires AllDigits(d)
    ensures var p := ZeroPad(d, room);
      |p| >= room && AllDigits(p) && DigitsValue(p) == DigitsValue(d)
  {
    if |d| < room {
      LeadingZerosValue(room - |d|, d);
    }
  }

  /** Zeros in front do not change the value of a digit string. */
  lemma {:induction false} LeadingZerosValue(k: nat, d: string)
    requires AllDigits(d)
    ensures AllDigits(Zeros(k) + d) && DigitsValue(Zeros(k) + d) == DigitsValue(d)
    decreases |d|
  {
    var s := Zeros(k) + d;
    if d == [] {
      assert s == Zeros(k);
      ZerosValue(k);
    } else {
      LeadingZerosValue(k, d[..|d| - 1]);
      assert s[..|s| - 1] == Zeros(k) + d[..|d| - 1];
    }
  }

  lemma {:induction false} ZerosValue(k: nat)
    ensures AllDigits(Zeros(k)) && DigitsValue(Zeros(k)) == 0
  {
    if k > 0 {
      ZerosValue(k - 1);
      assert Zeros(k)[..k - 1] == Zeros(k - 1);
    }
  }

  // ---------------------------------------------------------------------------
  // Decimal scanning

  /** The number of decimal digits at the front of `s`. */
  function DigitRun(s: string): (n: nat)
    ensures n <= |s| && AllDigits(s[..n]) && (n == |s| || !IsDigit(s[n]))
  {
    if s != [] && IsDigit(s[0]) then
      assert s[..1 + DigitRun(s[1..])] == [s[0]] + s[1..][..DigitRun(s[1..])];
      1 + DigitRun(s[1..])
    else 0
  }

  /** `fmt.Sscanf(s, "%d", &n)` into a 64-bit int: an optional sign, then the
      longest run of decimal digits (at least one); whatever follows the digits is
      not looked at; a value outside the 64-bit range is an error. */
  function ScanInt(s: string): (r: Option<int>)
    ensures r.Some? ==> MinInt64 <= r.value <= MaxInt64
    ensures r.Some? ==> |s| > 0 && (IsDigit(s[0]) || (|s| > 1 && (s[0] == '+' || s[0] == '-') && IsDigit(s[1])))
  {
    var signed := |s| > 0 && (s[0] == '+' || s[0] == '-');
    var body := if signed then s[1..] else s;
    var run := DigitRun(body);
    if run == 0 then None
    else
      var magnitude: int := DigitsValue(body[..run]);
      var value: int := if signed && s[0] == '-' then -magnitude else magnitude;
      if MinInt64 <= value <= MaxInt64 then Some(value) else None
  }

  // ---------------------------------------------------------------------------
  // Lemmas

  /** Reading back a decimal rendering gives the number. */
  lemma {:induction false} DecimalValue(n: nat)
    ensures DigitsValue(Decimal(n)) == n
  {
    if n >= 10 {
      var s := Decimal(n);
      DecimalValue(n / 10);
      assert s[..|s| - 1] == Decimal(n / 10);
    }
  }

  /** The digit run of a rendering followed by a non-digit is the whole rendering. */
  lemma {:induction false} DigitRunOfDigits(d: string, rest: string)
    requires AllDigits(d)
    requires rest == [] || !IsDigit(rest[0])
    ensures DigitRun(d + rest) == |d|
  {
    if d != [] {
      assert (d + rest)[1..] == d[1..] + rest;
      DigitRunOfDigits(d[1..], rest);
    }
  }

  /** `%d` scanning reads back what `%v` rendered, whatever text follows the
      number, so long as it does not start with a digit. */
  lemma ScanIntRoundTrip(n: int, rest: string)
    requires MinInt64 <= n <= MaxInt64
    requires rest == [] || !IsDigit(rest[0])
    ensures ScanInt(IntToString(n) + rest) == Some(n)
  {
    var d := Decimal(if n < 0 then -n else n);
    DecimalValue(if n < 0 then -n else n);
    if n < 0 {
      ScanNegative(d, rest);
    } else {
      ScanDigits(d, rest);
    }
  }

  /** `%d` on digits followed by a non-digit reads the digits. */
  lemma ScanDigits(d: string, rest: string)
    requires d != [] && AllDigits(d) && DigitsValue(d) <= MaxInt64
    requires rest == [] || !IsDigit(rest[0])
    ensures ScanInt(d + rest) == Some(DigitsValue(d))
  {
    DigitRunOfDigits(d, rest);
    SignedParts(d, rest);
  }

  lemma SignedParts(d: string, rest: string)
    ensures ("-" + d + rest)[0] == '-' && ("-" + d + rest)[1..] == d + rest
    ensures (d + rest)[..|d|] == d
  {
    assert ("-" + d + rest)[1..] == d + rest;
  }

  /** `%d` on a minus sign, digits and a non-digit reads the negated digits. */
  lemma ScanNegative(d: string, rest: string)
    requires d != [] && AllDigits(d) && DigitsValue(d) <= -MinInt64
    requires rest == [] || !IsDigit(rest[0])
    ensures ScanInt("-" + d + rest) == Some(-(DigitsValue(d) as int))
  {
    DigitRunOfDigits(d, rest);
    SignedParts(d, rest);
  }

  /** `Word` stops exactly at the end of a whitespace-free prefix. */
  lemma {:induction false} WordOfPrefix(w: string, rest: string)
    requires NoSpace(w)
    requires rest == [] || IsSpace(rest[0])
    ensures Word(w + rest) == w
  {
    if w != [] {
      assert (w + rest)[0] == w[0];
      assert (w + rest)[1..] == w[1..] + rest;
      WordOfPrefix(w[1..], rest);
    }
  }

  /** A word followed by whitespace is the first field. */
  lemma FieldsOfWordThen(w: string, rest: string)
    requires w != [] && NoSpace(w)
    requires rest == [] || IsSpace(rest[0])
    ensures Fields(w + rest) == [w] + Fields(rest)
  {
    WordOfPrefix(w, rest);
    assert (w + rest)[|w|..] == rest;
  }

  /** Splitting words joined by single spaces gives the words back. */
  lemma {:induction false} FieldsOfJoin(words: seq<string>)
    requires forall i :: 0 <= i < |words| ==> words[i] != [] && NoSpace(words[i])
    ensures Fields(Join(words, " ")) == words
  {
    if |words| == 1 {
      FieldsOfWordThen(words[0], []);
      assert words[0] + [] == words[0];
    } else if |words| > 1 {
      var tail := Join(words[1..], " ");
      assert Join(words, " ") == words[0] + (" " + tail);
      FieldsOfWordThen(words[0], " " + tail);
      assert (" " + tail)[1..] == tail;
      FieldsOfJoin(words[1..]);
    }
  }

  /** Two-character zero padding of a number below 100. */
  lemma PadTwo(n: nat)
    requires n < 100
    ensures PadInt(n, 2) == [DigitChar(n / 10), DigitChar(n % 10)]
  {
    if n >= 10 {
      assert Decimal(n) == Decimal(n / 10) + [DigitChar(n % 10)];
    }
  }

  /** Three-character zero padding of a number below 1000. */
  lemma PadThree(n: nat)
    requires n < 1000
    ensures PadInt(n, 3) == [DigitChar(n / 100), DigitChar(n / 10 % 10), DigitChar(n % 10)]
  {
    if n >= 100 {
      DecimalThree(n);
    } else if n >= 10 {
      DecimalTwo(n);
      assert PadInt(n, 3) == Zeros(1) + Decimal(n);
    } else {
      assert PadInt(n, 3) == Zeros(2) + Decimal(n);
    }
  }

  lemma DecimalTwo(n: nat)
    requires 10 <= n < 100
    ensures Decimal(n) == [DigitChar(n / 10), DigitChar(n % 10)]
  {
    assert Decimal(n) == Decimal(n / 10) + [DigitChar(n % 10)];
  }

  lemma DecimalThree(n: nat)
    requires 100 <= n < 1000
    ensures Decimal(n) == [DigitChar(n / 100), DigitChar(n / 10 % 10), DigitChar(n % 10)]
  {
    var m := n / 10;
    assert m / 10 == n / 100;
    DecimalTwo(m);
    assert Decimal(n) == Decimal(m) + [DigitChar(n % 10)];
  }

  /** Text that neither starts nor ends with whitespace is left as it is by
      `TrimSpace`. */
  lemma TrimSpaceOfTrimmed(s: string)
    requires s == [] || (!IsSpace(s[0]) && !IsSpace(s[|s| - 1]))
    ensures TrimSpace(s) == s
  {
  }

  /** Leading whitespace does not survive `TrimSpace`. */
  lemma TrimSpaceAfterSpace(s: string)
    ensures TrimSpace(" " + s) == TrimSpace(s)
  {
    assert (" " + s)[1..] == s;
  }

  /** Words joined by single spaces start with the first word's first character
      and end with the last word's last character. */
  lemma {:induction false} JoinEnds(words: seq<string>)
    requires |words| > 0
    requires forall i :: 0 <= i < |words| ==> words[i] != []
    ensures var j := Join(words, " "); var last := words[|words| - 1];
      j != [] && j[0] == words[0][0] && j[|j| - 1] == last[|last| - 1]
  {
    if |words| > 1 {
      JoinEnds(words[1..]);
    }
  }

  /** A rendered integer is one non-empty word that starts with `-` or a digit. */
  lemma IntToStringIsWord(n: int)
    ensures var s := IntToString(n);
      s != [] && NoSpace(s) && (s[0] == '-' || IsDigit(s[0])) && IsDigit(s[|s| - 1])
  {
    var d := Decimal(if n < 0 then -n else n);
    assert forall i :: 0 <= i < |d| ==> IsDigit(d[i]) && !IsSpace(d[i]);
  }

  /** Text made only of whitespace trims to nothing. */
  lemma {:induction false} TrimLeftOfSpaces(s: string)
    requires forall i :: 0 <= i < |s| ==> IsSpace(s[i])
    ensures TrimLeft(s) == []
  {
    if s != [] {
      TrimLeftOfSpaces(s[1..]);
    }
  }
}
