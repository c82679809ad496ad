// The hexadecimal colours of src/colors.cpp.
module HexColors {
  import opened ColorModels
  import opened Options

  const DIGITS: string := "0123456789abcdef"

  /** The written form of three bytes. */
  function HexOf(r: nat, g: nat, b: nat): string
    requires r < 256 && g < 256 && b < 256
  {
    ['#', DIGITS[r / 16], DIGITS[r % 16], DIGITS[g / 16], DIGITS[g % 16], DIGITS[b / 16], DIGITS[b % 16]]
  }

  /** A channel as a byte, rounded to the nearest and kept in range. */
  function Upscaled(x: real): (n: nat)
    ensures n < 256
  {
    var u := (0.5 + x * 255.0).Floor;
    if u < 0 then 0 else if u > 255 then 255 else u
  }

  function RgbToHex(c: Color): string {
    HexOf(Upscaled(c.x), Upscaled(c.y), Upscaled(c.z))
  }

  predicate IsSpace(c: char) {
    c == ' ' || '\U{09}' <= c <= '\U{0D}'
  }

  function TrimFront(s: string): string {
    if s != [] && IsSpace(s[0]) then TrimFront(s[1..]) else s
  }

  function TrimBack(s: string): string {
    if s != [] && IsSpace(s[|s| - 1]) then TrimBack(s[..|s| - 1]) else s
  }

  /** What is left of s without its first a characters and those from b on, all of them white space; it neither
      begins nor ends with white space. */
  ghost predicate IsCore(s: string, r: string, a: nat, b: nat) {
    && a <= b <= |s| && r == s[a..b]
    && (forall k :: 0 <= k < a || b <= k < |s| ==> IsSpace(s[k]))
    && (r != [] ==> !IsSpace(r[0]) && !IsSpace(r[|r| - 1]))
  }

  lemma {:induction false} FrontTrimmed(s: string) returns (a: nat)
    ensures a <= |s| && TrimFront(s) == s[a..] && (forall k :: 0 <= k < a ==> IsSpace(s[k]))
    ensures a < |s| ==> !IsSpace(s[a])
  {
    if s != [] && IsSpace(s[0]) {
      var n := FrontTrimmed(s[1..]);
      a := n + 1;
      assert forall k :: 1 <= k < |s| ==> s[k] == s[1..][k - 1];
    } else {
      a := 0;
    }
  }

  lemma {:induction false} BackTrimmed(s: string) returns (b: nat)
    ensures b <= |s| && TrimBack(s) == s[..b] && (forall k :: b <= k < |s| ==> IsSpace(s[k]))
    ensures b > 0 ==> !IsSpace(s[b - 1])
  {
    if s != [] && IsSpace(s[|s| - 1]) {
      b := BackTrimmed(s[..|s| - 1]);
    } else {
      b := |s|;
    }
  }

  /** Trimming leaves the core of the string. */
  lemma TrimmedIsCore(s: string) returns (a: nat, b: nat)
    ensures IsCore(s, TrimBack(TrimFront(s)), a, b)
  {
    a := FrontTrimmed(s);
    var n := BackTrimmed(s[a..]);
    b := a + n;
    assert forall k :: a <= k < |s| ==> s[k] == s[a..][k - a];
    assert s[a..][..n] == s[a..b];
  }

  lemma CoreReaches(s: string, r: string, a: nat, b: nat, k: nat)
    requires IsCore(s, r, a, b) && k < |s| && !IsSpace(s[k])
    ensures a <= k < b
  {
  }

  lemma CoreEnds(s: string, r: string, a: nat, b: nat)
    requires IsCore(s, r, a, b) && a < b
    ensures !IsSpace(s[a]) && !IsSpace(s[b - 1])
  {
    assert s[a] == r[0] && s[b - 1] == r[|r| - 1];
  }

  /** The core of a string is one string. */
  lemma CoreUnique(s: string, r: string, a: nat, b: nat, r2: string, a2: nat, b2: nat)
    requires IsCore(s, r, a, b) && IsCore(s, r2, a2, b2)
    ensures r == r2
  {
    if a < b {
      CoreEnds(s, r, a, b);
      CoreReaches(s, r2, a2, b2, a);
      CoreReaches(s, r2, a2, b2, b - 1);
    }
    if a2 < b2 {
      CoreEnds(s, r2, a2, b2);
      CoreReaches(s, r, a, b, a2);
      CoreReaches(s, r, a, b, b2 - 1);
    }
  }

  method Trim(s: string) returns (r: string)
    ensures r == TrimBack(TrimFront(s)) && exists a, b :: IsCore(s, r, a, b)
  {
    ghost var a, b := TrimmedIsCore(s);
    var start := 0;
    while start < |s| && IsSpace(s[start])
      invariant start <= |s| && TrimFront(s[start..]) == TrimFront(s)
    {
      assert s[start..][1..] == s[start + 1..];
      start := start + 1;
    }
    r := TrimEnd(s[start..]);
  }

  method TrimEnd(s: string) returns (r: string)
    ensures r == TrimBack(s)
  {
    var end := |s|;
    assert s[..end] == s;
    while end > 0 && IsSpace(s[end - 1])
      invariant end <= |s| && TrimBack(s[..end]) == TrimBack(s)
    {
      assert s[..end][..end - 1] == s[..end - 1];
      end := end - 1;
    }
    r := s[..end];
  }

  function DigitValue(c: char): Option<int> {
    if '0' <= c <= '9' then Some(c as int - '0' as int)
    else if 'a' <= c <= 'f' then Some(c as int - 'a' as int + 10)
    else if 'A' <= c <= 'F' then Some(c as int - 'A' as int + 10)
    else None
  }

  /** std::stoi in base 16 on two characters: it skips a leading space, takes a sign and the prefix 0x, and
      stops at the first character that is no digit. */
  function ParseByte(a: char, b: char): Option<int> {
    if IsSpace(a) then DigitValue(b)
    else if a == '+' then DigitValue(b)
    else if a == '-' then
      match DigitValue(b)
      case Some(v) => Some(-v)
      case None => None
    else match DigitValue(a)
      case Some(v) => (match DigitValue(b) case Some(w) => Some(16 * v + w) case None => Some(v))
      case None => None
  }

  /** The colour that a trimmed string names: an optional #, and six characters. */
  function FromHex(s: string): Option<Color> {
    FromDigits(WithoutHash(s))
  }

  function FromDigits(s: string): Option<Color> {
    if |s| != 6 then None
    else match (ParseByte(s[0], s[1]), ParseByte(s[2], s[3]), ParseByte(s[4], s[5]))
      case (Some(r), Some(g), Some(b)) => Some(OfBytes(r, g, b))
      case _ => None
  }

  function OfBytes(r: int, g: int, b: int): Color {
    Color(r as real / 255.0, g as real / 255.0, b as real / 255.0)
  }

  predicate IsDigit(c: char) {
    '0' <= c <= '9' || 'a' <= c <= 'f' || 'A' <= c <= 'F'
  }

  /** Two characters that std::stoi accepts: a digit first, or white space or a sign with a digit behind it. */
  predicate NamesByte(a: char, b: char) {
    IsDigit(a) || ((IsSpace(a) || a == '+' || a == '-') && IsDigit(b))
  }

  /** The six characters of the three channels. */
  function WithoutHash(s: string): string {
    if s != [] && s[0] == '#' then s[1..] else s
  }

  predicate NamesColor(s: string) {
    var d := WithoutHash(s);
    |d| == 6 && NamesByte(d[0], d[1]) && NamesByte(d[2], d[3]) && NamesByte(d[4], d[5])
  }

  /** A minus sign before a digit other than 0. */
  predicate Negative(a: char, b: char) {
    a == '-' && IsDigit(b) && b != '0'
  }

  lemma ByteNamed(a: char, b: char)
    ensures ParseByte(a, b).Some? <==> NamesByte(a, b)
    ensures NamesByte(a, b) ==> -15 <= ParseByte(a, b).value <= 255
    ensures NamesByte(a, b) ==> (ParseByte(a, b).value < 0 <==> Negative(a, b))
  {
  }

  lemma ByteInUnit(v: int)
    requires v <= 255
    ensures 0.0 <= v as real / 255.0 <= 1.0 <==> v >= 0
  {
  }

  /** Which strings are refused; and which of the others name a color outside the unit cube. */
  lemma NamedExactly(s: string)
    ensures FromHex(s).Some? <==> NamesColor(s)
    ensures NamesColor(s) ==>
      var d := WithoutHash(s);
      InCube(FromHex(s).value) <==> !Negative(d[0], d[1]) && !Negative(d[2], d[3]) && !Negative(d[4], d[5])
  {
    var d := WithoutHash(s);
    if |d| == 6 {
      ByteNamed(d[0], d[1]);
      ByteNamed(d[2], d[3]);
      ByteNamed(d[4], d[5]);
      if NamesColor(s) {
        ByteInUnit(ParseByte(d[0], d[1]).value);
        ByteInUnit(ParseByte(d[2], d[3]).value);
        ByteInUnit(ParseByte(d[4], d[5]).value);
      }
    }
  }

  method RgbFromHex(hex: string) returns (c: Option<Color>)
    ensures c == FromHex(TrimBack(TrimFront(hex)))
    ensures c.Some? <==> NamesColor(TrimBack(TrimFront(hex)))
  {
    NamedExactly(TrimBack(TrimFront(hex)));
    var s := Trim(hex);
    if s != [] && s[0] == '#' {
      s := s[1..];
    }
    if |s| != 6 {
      return None;
    }
    var r, g, b := ParseByte(s[0], s[1]), ParseByte(s[2], s[3]), ParseByte(s[4], s[5]);
    if r == None || g == None || b == None {
      return None;
    }
    c := Some(OfBytes(r.value, g.value, b.value));
  }

  lemma DigitBack(d: nat)
    requires d < 16
    ensures DigitValue(DIGITS[d]) == Some(d) && !IsSpace(DIGITS[d])
    ensures DIGITS[d] != '+' && DIGITS[d] != '-' && DIGITS[d] != '#'
  {
  }

  lemma ByteBack(n: nat)
    requires n < 256
    ensures ParseByte(DIGITS[n / 16], DIGITS[n % 16]) == Some(n)
  {
    DigitBack(n / 16);
    DigitBack(n % 16);
  }

  /** What was written is read back. */
  lemma HexBack(r: nat, g: nat, b: nat)
    requires r < 256 && g < 256 && b < 256
    ensures TrimBack(TrimFront(HexOf(r, g, b))) == HexOf(r, g, b)
    ensures FromHex(HexOf(r, g, b)) == Some(OfBytes(r, g, b))
  {
    var s := HexOf(r, g, b);
    DigitBack(b % 16);
    assert TrimFront(s) == s;
    ByteBack(r);
    ByteBack(g);
    ByteBack(b);
    var d := s[1..];
    assert d == [DIGITS[r / 16], DIGITS[r % 16], DIGITS[g / 16], DIGITS[g % 16], DIGITS[b / 16], DIGITS[b % 16]];
  }

  lemma UpscaledClose(x: real)
    requires 0.0 <= x <= 1.0
    ensures -1.0 / 510.0 <= Upscaled(x) as real / 255.0 - x <= 1.0 / 510.0
  {
  }

  /** Writing a colour in hexadecimal and reading it errs by at most 1/510 in each channel. */
  lemma HexRoundTrip(c: Color)
    requires InCube(c)
    ensures TrimBack(TrimFront(RgbToHex(c))) == RgbToHex(c) && FromHex(RgbToHex(c)).Some?
    ensures var d := FromHex(RgbToHex(c)).value;
      && -1.0 / 510.0 <= d.x - c.x <= 1.0 / 510.0
      && -1.0 / 510.0 <= d.y - c.y <= 1.0 / 510.0
      && -1.0 / 510.0 <= d.z - c.z <= 1.0 / 510.0
  {
    HexBack(Upscaled(c.x), Upscaled(c.y), Upscaled(c.z));
    UpscaledClose(c.x);
    UpscaledClose(c.y);
    UpscaledClose(c.z);
  }

  lemma UpscaledByte(n: nat)
    requires n < 256
    ensures Upscaled(n as real / 255.0) == n
  {
    assert n as real / 255.0 * 255.0 == n as real;
    FloorIs(0.5 + n as real, n);
  }

  lemma BytesWritten(r: nat, g: nat, b: nat)
    requires r < 256 && g < 256 && b < 256
    ensures RgbToHex(OfBytes(r, g, b)) == HexOf(r, g, b)
  {
    UpscaledByte(r);
    UpscaledByte(g);
    UpscaledByte(b);
  }

  /** Reading a hexadecimal colour in its written form and writing it again changes nothing. */
  lemma HexRereadExact(r: nat, g: nat, b: nat, c: Color)
    requires r < 256 && g < 256 && b < 256
    ensures FromHex(HexOf(r, g, b)) == Some(c) ==> RgbToHex(c) == HexOf(r, g, b)
    ensures FromHex(HexOf(r, g, b)).Some?
  {
    HexBack(r, g, b);
    BytesWritten(r, g, b);
  }

  const CAPITALS: string := "0123456789ABCDEF"

  lemma CapitalBack(d: nat)
    requires d < 16
    ensures DigitValue(CAPITALS[d]) == Some(d) && !IsSpace(CAPITALS[d])
    ensures CAPITALS[d] != '+' && CAPITALS[d] != '-' && CAPITALS[d] != '#'
  {
  }

  lemma CapitalByte(n: nat)
    requires n < 256
    ensures ParseByte(CAPITALS[n / 16], CAPITALS[n % 16]) == Some(n)
  {
    CapitalBack(n / 16);
    CapitalBack(n % 16);
  }

  /** Capital digits are read as the small ones are, with # and without. */
  lemma CapitalsRead(r: nat, g: nat, b: nat)
    requires r < 256 && g < 256 && b < 256
    ensures var d := [CAPITALS[r / 16], CAPITALS[r % 16], CAPITALS[g / 16], CAPITALS[g % 16], CAPITALS[b / 16],
                      CAPITALS[b % 16]];
      FromHex(d) == FromHex(['#'] + d) == FromHex(HexOf(r, g, b))
  {
    var d := [CAPITALS[r / 16], CAPITALS[r % 16], CAPITALS[g / 16], CAPITALS[g % 16], CAPITALS[b / 16],
              CAPITALS[b % 16]];
    CapitalBack(r / 16);
    CapitalByte(r);
    CapitalByte(g);
    CapitalByte(b);
    SixDigits(d, r, g, b);
    HexBack(r, g, b);
  }

  lemma SixDigits(d: string, r: int, g: int, b: int)
    requires |d| == 6 && d[0] != '#'
    requires ParseByte(d[0], d[1]) == Some(r) && ParseByte(d[2], d[3]) == Some(g) && ParseByte(d[4], d[5]) == Some(b)
    ensures FromHex(d) == FromHex(['#'] + d) == Some(OfBytes(r, g, b))
  {
    assert (['#'] + d)[1..] == d;
  }

  /** The channels are red, green and blue, the high digit of each first. */
  lemma PrimariesWritten()
    ensures RgbToHex(Color(1.0, 0.0, 0.0)) == "#ff0000" && RgbToHex(Color(0.0, 1.0, 0.0)) == "#00ff00"
    ensures RgbToHex(Color(0.0, 0.0, 1.0)) == "#0000ff"
    ensures RgbToHex(Color(16.0 / 255.0, 2.0 / 255.0, 171.0 / 255.0)) == "#1002ab"
  {
    BytesWritten(255, 0, 0);
    BytesWritten(0, 255, 0);
    BytesWritten(0, 0, 255);
    BytesWritten(16, 2, 171);
  }
}
