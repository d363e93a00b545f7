/** String handling shared by the command interpreters: boost's split/trim, std::stoi and
    std::to_string, and the `%012d` padding of file names. */
module Text {
  import opened Wrappers

  /** The characters `std::isspace` accepts in the "C" locale (boost's `is_space`). */
  predicate IsSpace(c: char) {
    c == ' ' || c == '\t' || c == '\n' || c == '\U{0B}' || c == '\U{0C}' || c == '\r'
  }

  predicate NoneOf(s: string, isSep: char -> bool) {
    forall i | 0 <= i < |s| :: !isSep(s[i])
  }

  /** Number of characters of `s` that are separators. */
  function SeparatorCount(s: string, isSep: char -> bool): nat {
    if s == [] then 0 else (if isSep(s[0]) then 1 else 0) + SeparatorCount(s[1..], isSep)
  }

  /** `boost::algorithm::split` with token compression off: every separator closes a token,
      so k separators give k + 1 tokens, empty tokens included. */
  function Split(s: string, isSep: char -> bool): (r: seq<string>)
    ensures |r| == SeparatorCount(s, isSep) + 1
  {
    if s == [] then [""]
    else
      var rest := Split(s[1..], isSep);
      if isSep(s[0]) then [""] + rest
      else [[s[0]] + rest[0]] + rest[1..]
  }

  /** No token of a split holds a separator. */
  lemma {:induction false} SplitTokensClean(s: string, isSep: char -> bool)
    ensures forall i | 0 <= i < |Split(s, isSep)| :: NoneOf(Split(s, isSep)[i], isSep)
  {
    if s != [] {
      SplitTokensClean(s[1..], isSep);
      var rest := Split(s[1..], isSep);
      if !isSep(s[0]) {
        var first := [s[0]] + rest[0];
        assert forall j | 1 <= j < |first| :: first[j] == rest[0][j - 1];
      }
    }
  }

  /** The parts with `sep` between each two of them. */
  function Join(parts: seq<string>, sep: string): string {
    if |parts| == 0 then ""
    else if |parts| == 1 then parts[0]
    else parts[0] + sep + Join(parts[1..], sep)
  }

  /** Every part followed by `suffix`, as `for (x : parts) out << x << suffix` writes them. */
  function Terminated(parts: seq<string>, suffix: string): string {
    if parts == [] then "" else parts[0] + suffix + Terminated(parts[1..], suffix)
  }

  lemma {:induction false} TerminatedIsJoinPlusSuffix(parts: seq<string>, suffix: string)
    requires parts != []
    ensures Terminated(parts, suffix) == Join(parts, suffix) + suffix
  {
    if |parts| > 1 {
      TerminatedIsJoinPlusSuffix(parts[1..], suffix);
    }
  }

  /** Writing one more part after the others appends it with its suffix. */
  lemma {:induction false} TerminatedSnoc(parts: seq<string>, x: string, suffix: string)
    ensures Terminated(parts + [x], suffix) == Terminated(parts, suffix) + x + suffix
  {
    if parts == [] {
      assert [x][1..] == [];
    } else {
      assert (parts + [x])[1..] == parts[1..] + [x];
      TerminatedSnoc(parts[1..], x, suffix);
    }
  }

  /** The line break `std::endl` writes and `getline` reads up to. */
  predicate IsNewline(c: char) {
    c == '\n'
  }

  /** Splitting text whose every part is ended by a separator character gives the parts
      back, followed by the empty part after the last separator. */
  lemma {:induction false} SplitTerminated(parts: seq<string>, c: char, isSep: char -> bool)
    requires isSep(c)
    requires forall i | 0 <= i < |parts| :: NoneOf(parts[i], isSep)
    ensures Split(Terminated(parts, [c]), isSep) == parts + [""]
  {
    if parts != [] {
      SplitTerminated(parts[1..], c, isSep);
      SplitAppend(parts[0], Terminated(parts[1..], [c]), c, isSep);
      assert [parts[0]] + (parts[1..] + [""]) == parts + [""];
    }
  }

  /** Joining with a separator character and splitting at it again gives the parts back, as
      long as no part contains a separator. */
  lemma {:induction false} SplitJoin(parts: seq<string>, c: char, isSep: char -> bool)
    requires parts != []
    requires isSep(c)
    requires forall i | 0 <= i < |parts| :: NoneOf(parts[i], isSep)
    ensures Split(Join(parts, [c]), isSep) == parts
  {
    if |parts| == 1 {
      SplitNoSeparator(parts[0], isSep);
    } else {
      SplitJoin(parts[1..], c, isSep);
      SplitAppend(parts[0], Join(parts[1..], [c]), c, isSep);
      assert Join(parts, [c]) == parts[0] + [c] + Join(parts[1..], [c]);
    }
  }

  lemma {:induction false} SplitNoSeparator(s: string, isSep: char -> bool)
    requires NoneOf(s, isSep)
    ensures Split(s, isSep) == [s]
  {
    if s != [] {
      SplitNoSeparator(s[1..], isSep);
      assert [s[0]] + s[1..] == s;
    }
  }

  /** A separator-free head followed by one separator contributes exactly one token. */
  lemma {:induction false} SplitAppend(head: string, tail: string, c: char, isSep: char -> bool)
    requires isSep(c)
    requires NoneOf(head, isSep)
    ensures Split(head + [c] + tail, isSep) == [head] + Split(tail, isSep)
  {
    if head == [] {
      assert [c] + tail == head + [c] + tail;
      assert ([c] + tail)[1..] == tail;
    } else {
      SplitAppend(head[1..], tail, c, isSep);
      assert (head + [c] + tail)[1..] == head[1..] + [c] + tail;
      assert [head[0]] + head[1..] == head;
    }
  }

  /** `s` without its trailing characters that satisfy `drop`. */
  function DropRight(s: string, drop: char -> bool): (r: string)
    ensures |r| <= |s|
    ensures r == [] || !drop(r[|r| - 1])
  {
    if s == [] || !drop(s[|s| - 1]) then s else DropRight(s[..|s| - 1], drop)
  }

  /** What `DropRight` keeps is a prefix, and every character it removes satisfies `drop`. */
  lemma {:induction false} DropRightParts(s: string, drop: char -> bool)
    ensures DropRight(s, drop) <= s
    ensures forall i | |DropRight(s, drop)| <= i < |s| :: drop(s[i])
  {
    if s != [] && drop(s[|s| - 1]) {
      DropRightParts(s[..|s| - 1], drop);
    }
  }

  /** `s` without its leading characters that satisfy `drop`. */
  function DropLeft(s: string, drop: char -> bool): (r: string)
    ensures |r| <= |s|
    ensures r == [] || !drop(r[0])
  {
    if s == [] || !drop(s[0]) then s else DropLeft(s[1..], drop)
  }

  /** What `DropLeft` keeps is a suffix, and every character it removes satisfies `drop`. */
  lemma {:induction false} DropLeftParts(s: string, drop: char -> bool)
    ensures DropLeft(s, drop) == s[|s| - |DropLeft(s, drop)|..]
    ensures forall i | 0 <= i < |s| - |DropLeft(s, drop)| :: drop(s[i])
  {
    if s != [] && drop(s[0]) {
      DropLeftParts(s[1..], drop);
      assert forall i | 1 <= i < |s| :: s[i] == s[1..][i - 1];
    }
  }

  /** `boost::algorithm::trim_right`: drops trailing white space. */
  function TrimRight(s: string): string {
    DropRight(s, IsSpace)
  }

  /** `boost::algorithm::trim_if(s, p)`: drops leading and trailing characters satisfying p. */
  function TrimIf(s: string, drop: char -> bool): string {
    DropRight(DropLeft(s, drop), drop)
  }

  lemma TrimIfKeepsClean(s: string, drop: char -> bool)
    requires s == [] || (!drop(s[0]) && !drop(s[|s| - 1]))
    ensures TrimIf(s, drop) == s
  {
  }

  // ----- numbers -----

  predicate IsDigit(c: char) {
    '0' <= c <= '9'
  }

  predicate AllDigits(s: string) {
    forall i | 0 <= i < |s| :: IsDigit(s[i])
  }

  function DigitValue(c: char): nat
    requires IsDigit(c)
  {
    (c as int) - ('0' as int)
  }

  function DigitChar(d: nat): (c: char)
    requires d < 10
    ensures IsDigit(c) && DigitValue(c) == d
  {
    (('0' as int) + d) as char
  }

  /** The value of a decimal digit string, most significant digit first. */
  function DigitsValue(ds: string): nat
    requires AllDigits(ds)
  {
    if ds == [] then 0 else DigitsValue(ds[..|ds| - 1]) * 10 + DigitValue(ds[|ds| - 1])
  }

  /** The longest prefix of `s` made of decimal digits. */
  function LeadingDigits(s: string): (r: string)
    ensures |r| <= |s| && AllDigits(r)
  {
    if s == [] || !IsDigit(s[0]) then "" else [s[0]] + LeadingDigits(s[1..])
  }

  /** The leading digits are a prefix, followed by the end of `s` or by a non-digit. */
  lemma {:induction false} LeadingDigitsParts(s: string)
    ensures LeadingDigits(s) <= s
    ensures |LeadingDigits(s)| == |s| || !IsDigit(s[|LeadingDigits(s)|])
  {
    if s != [] && IsDigit(s[0]) {
      LeadingDigitsParts(s[1..]);
    }
  }

  /** Decimal representation of a natural number, without leading zeros. */
  function NatToString(n: nat): (r: string)
    ensures |r| >= 1 && AllDigits(r)
    ensures DigitsValue(r) == n
    ensures |r| > 1 ==> r[0] != '0'
  {
    if n < 10 then [DigitChar(n)]
    else
      var r := NatToString(n / 10) + [DigitChar(n % 10)];
      assert r[..|r| - 1] == NatToString(n / 10);
      r
  }

  /** `std::to_string` of an integer. */
  function IntToString(n: int): string {
    if n < 0 then "-" + NatToString(-n) else NatToString(n)
  }

  /** A printed integer is a digit string, with a leading '-' when negative. */
  lemma IntToStringChars(n: int)
    ensures |IntToString(n)| >= 1
    ensures forall i | 0 <= i < |IntToString(n)| :: IsDigit(IntToString(n)[i]) || IntToString(n)[i] == '-'
  {
    if n < 0 {
      var d := NatToString(-n);
      assert forall i | 1 <= i < |"-" + d| :: ("-" + d)[i] == d[i - 1];
    }
  }

  function SkipSpaces(s: string): (r: string)
    ensures |r| <= |s|
    ensures r == [] || !IsSpace(r[0])
  {
    DropLeft(s, IsSpace)
  }

  /** What `strtoll` reads from the start of `s` in base 10: optional white space, an optional
      sign and at least one digit; anything after the digits is ignored.  `None` when there is
      no digit, which makes `std::stoi` throw `invalid_argument`. */
  function ParseLeadingInt(s: string): Option<int> {
    var t := SkipSpaces(s);
    var neg := t != [] && t[0] == '-';
    var u := if t != [] && (t[0] == '-' || t[0] == '+') then t[1..] else t;
    var ds := LeadingDigits(u);
    if ds == [] then None
    else
      var v: int := DigitsValue(ds);
      Some(if neg then -v else v)
  }

  const INT32_MIN: int := -0x8000_0000
  const INT32_MAX: int := 0x7FFF_FFFF
  const INT64_MIN: int := -0x8000_0000_0000_0000
  const INT64_MAX: int := 0x7FFF_FFFF_FFFF_FFFF

  predicate IsInt32(n: int) {
    INT32_MIN <= n <= INT32_MAX
  }

  predicate IsInt64(n: int) {
    INT64_MIN <= n <= INT64_MAX
  }

  /** `std::stoi`: `None` where it throws (no digits, or outside the range of int). */
  function StoI(s: string): (r: Option<int>)
    ensures r.Some? ==> IsInt32(r.value) && ParseLeadingInt(s) == r
    ensures r.None? ==> ParseLeadingInt(s).None? || !IsInt32(ParseLeadingInt(s).value)
  {
    match ParseLeadingInt(s)
    case Some(n) => if IsInt32(n) then Some(n) else None
    case None => None
  }

  /** `std::stoll`: `None` where it throws (no digits, or outside the range of long long). */
  function StoLL(s: string): (r: Option<int>)
    ensures r.Some? ==> IsInt64(r.value) && ParseLeadingInt(s) == r
    ensures r.None? ==> ParseLeadingInt(s).None? || !IsInt64(ParseLeadingInt(s).value)
  {
    match ParseLeadingInt(s)
    case Some(n) => if IsInt64(n) then Some(n) else None
    case None => None
  }

  lemma {:induction false} LeadingDigitsOfDigits(ds: string)
    requires AllDigits(ds)
    ensures LeadingDigits(ds) == ds
  {
    if ds != [] {
      LeadingDigitsOfDigits(ds[1..]);
      assert [ds[0]] + ds[1..] == ds;
    }
  }

  /** std::to_string and strtoll agree: reading back a printed integer gives the integer. */
  lemma ParseIntToString(n: int)
    ensures ParseLeadingInt(IntToString(n)) == Some(n)
  {
    var s := IntToString(n);
    var digits := NatToString(if n < 0 then -n else n);
    assert !IsSpace(s[0]);
    assert SkipSpaces(s) == s;
    LeadingDigitsOfDigits(digits);
    if n < 0 {
      assert s[1..] == digits;
    } else {
      assert s == digits;
    }
  }

  lemma StoIRoundTrip(n: int)
    requires IsInt32(n)
    ensures StoI(IntToString(n)) == Some(n)
  {
    ParseIntToString(n);
  }

  lemma StoLLRoundTrip(n: int)
    requires IsInt64(n)
    ensures StoLL(IntToString(n)) == Some(n)
  {
    ParseIntToString(n);
  }

  function Zeros(k: nat): (r: string)
    ensures |r| == k && forall i | 0 <= i < k :: r[i] == '0'
  {
    if k == 0 then "" else "0" + Zeros(k - 1)
  }

  /** `printf("%012d", n)` for a non-negative n: zero padded to at least twelve digits. */
  function ZeroPad12(n: nat): string {
    var digits := NatToString(n);
    if |digits| >= 12 then digits else Zeros(12 - |digits|) + digits
  }

  lemma {:induction false} DigitsValueLeadingZeros(k: nat, ds: string)
    requires AllDigits(ds)
    ensures AllDigits(Zeros(k) + ds) && DigitsValue(Zeros(k) + ds) == DigitsValue(ds)
    decreases |ds|
  {
    var s := Zeros(k) + ds;
    if ds == [] {
      assert s == Zeros(k);
      ZerosValue(k);
    } else {
      assert s[..|s| - 1] == Zeros(k) + ds[..|ds| - 1];
      DigitsValueLeadingZeros(k, ds[..|ds| - 1]);
    }
  }

  lemma {:induction false} ZerosValue(k: nat)
    ensures AllDigits(Zeros(k)) && DigitsValue(Zeros(k)) == 0
  {
    if k > 0 {
      ZerosValue(k - 1);
      assert Zeros(k)[..k - 1] == Zeros(k - 1);
    }
  }

  /** The padded field has at least twelve digits and still reads as n. */
  lemma ZeroPad12Reads(n: nat)
    ensures |ZeroPad12(n)| >= 12 && AllDigits(ZeroPad12(n))
    ensures DigitsValue(ZeroPad12(n)) == n
  {
    var digits := NatToString(n);
    if |digits| < 12 {
      DigitsValueLeadingZeros(12 - |digits|, digits);
    }
  }

  // ----- hexadecimal -----

  predicate IsHexDigit(c: char) {
    '0' <= c <= '9' || 'a' <= c <= 'f'
  }

  predicate AllHexDigits(s: string) {
    forall i | 0 <= i < |s| :: IsHexDigit(s[i])
  }

  function HexDigitValue(c: char): nat
    requires IsHexDigit(c)
  {
    if '0' <= c <= '9' then (c as int) - ('0' as int) else (c as int) - ('a' as int) + 10
  }

  function HexDigitChar(d: nat): (c: char)
    requires d < 16
    ensures IsHexDigit(c) && HexDigitValue(c) == d
  {
    if d < 10 then (('0' as int) + d) as char else (('a' as int) + d - 10) as char
  }

  /** The value of a lower-case hexadecimal digit string, most significant digit first. */
  function HexDigitsValue(ds: string): nat
    requires AllHexDigits(ds)
  {
    if ds == [] then 0 else HexDigitsValue(ds[..|ds| - 1]) * 16 + HexDigitValue(ds[|ds| - 1])
  }

  /** `boost::format("%x")` of a non-negative number: lower-case hexadecimal, no leading zeros. */
  function NatToHex(n: nat): (r: string)
    ensures |r| >= 1 && AllHexDigits(r)
    ensures HexDigitsValue(r) == n
    ensures |r| > 1 ==> r[0] != '0'
  {
    if n < 16 then [HexDigitChar(n)]
    else
      var r := NatToHex(n / 16) + [HexDigitChar(n % 16)];
      assert r[..|r| - 1] == NatToHex(n / 16);
      r
  }
}
