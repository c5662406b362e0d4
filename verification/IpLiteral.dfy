/**
 The IPv4 literal decoder of the source guard: one to four parts, each independently decimal, octal with
 a leading zero, or hexadecimal, the last part filling all the bytes the others leave.
 */
module IpLiteral {
  import opened Common
  import opened Text

  predicate StartsWith(s: string, prefix: string) {
    |s| >= |prefix| && s[..|prefix|] == prefix
  }

  predicate AllDigits(s: string) {
    forall c <- s :: '0' <= c <= '9'
  }

  /** One part: hexadecimal after `0x`, octal after a leading zero, decimal otherwise. */
  function ParseFlexible(part: string): Option<nat> {
    if part == "" then None
    else if StartsWith(part, "0x") || StartsWith(part, "0X") then ParseUnsigned(part[2..], 16, TWO_64)
    else if |part| > 1 && part[0] == '0' && AllDigits(part) then ParseUnsigned(part, 8, TWO_64)
    else ParseUnsigned(part, 10, TWO_64)
  }

  /** All parts as numbers, if every one of them is. */
  function ParseParts(parts: seq<string>): (nums: Option<seq<nat>>)
    ensures nums.Some? ==> |nums.value| == |parts|
  {
    if parts == [] then Some([])
    else
      var first :- ParseFlexible(parts[0]);
      var others :- ParseParts(parts[1..]);
      Some([first] + others)
  }

  /** Shifts the parts into place; the bit ranges of the parts are disjoint, so `|` is a sum. */
  function Assemble(nums: seq<nat>): Option<nat> {
    if |nums| == 1 then Some(nums[0])
    else if |nums| == 2 then
      if nums[0] > 0xFF || nums[1] > 0xFF_FFFF then None else Some(nums[0] * 0x100_0000 + nums[1])
    else if |nums| == 3 then
      if nums[0] > 0xFF || nums[1] > 0xFF || nums[2] > 0xFFFF then None
      else Some(nums[0] * 0x100_0000 + nums[1] * 0x1_0000 + nums[2])
    else if |nums| == 4 then
      if exists n <- nums :: n > 0xFF then None
      else Some(nums[0] * 0x100_0000 + nums[1] * 0x1_0000 + nums[2] * 0x100 + nums[3])
    else None
  }

  function ParseIpv4Literal(host: string): Option<nat> {
    var parts := Split(host, '.');
    if |parts| > 4 then None
    else
      var nums :- ParseParts(parts);
      var value :- Assemble(nums);
      if value < TWO_32 then Some(value) else None
  }

  // ---------------------------------------------------------------------------------------------
  // The printed forms of an address
  // ---------------------------------------------------------------------------------------------

  /** How a part is written; `zeros` is how many zeros stand in front of its digits beyond the required one. */
  datatype Style = InDecimal | InOctal(zeros: nat) | InHex(upperPrefix: bool, zeros: nat)

  function PrintPart(n: nat, style: Style): string {
    match style
    case InDecimal => Numeral(n, 10)
    case InOctal(zeros) => Zeros(1 + zeros) + Numeral(n, 8)
    case InHex(upper, zeros) => (if upper then "0X" else "0x") + (Zeros(zeros) + Numeral(n, 16))
  }

  /** The numbers that `count` parts of an address hold: a byte each, and the rest in the last one. */
  function PartsOf(address: nat, count: nat): (parts: seq<nat>)
    requires 1 <= count <= 4
    ensures |parts| == count
  {
    if count == 1 then [address]
    else if count == 2 then [address / 0x100_0000, address % 0x100_0000]
    else if count == 3 then [address / 0x100_0000, address / 0x1_0000 % 0x100, address % 0x1_0000]
    else [address / 0x100_0000, address / 0x1_0000 % 0x100, address / 0x100 % 0x100, address % 0x100]
  }

  function PrintParts(nums: seq<nat>, styles: seq<Style>): (parts: seq<string>)
    requires |nums| == |styles|
    ensures |parts| == |nums|
  {
    seq(|nums|, i requires 0 <= i < |nums| => PrintPart(nums[i], styles[i]))
  }

  function PrintAddress(address: nat, styles: seq<Style>): string
    requires 1 <= |styles| <= 4
  {
    Join(PrintParts(PartsOf(address, |styles|), styles), '.')
  }

  lemma {:induction false} NoLeadingZero(n: nat)
    requires n > 0
    ensures Numeral(n, 10)[0] != '0'
  {
    if n >= 10 {
      NoLeadingZero(n / 10);
    }
  }

  lemma ParseDecimalPart(n: nat)
    requires n < TWO_64
    ensures ParseFlexible(Numeral(n, 10)) == Some(n)
  {
    hide Numeral, ParseUnsigned;
    var s := Numeral(n, 10);
    ParseNumeral(n, 10, TWO_64);
    NumeralDigits(n, 10);
    assert s[0] in s;
    if n == 0 {
      ZeroNumeral();
    } else {
      NoLeadingZero(n);
    }
  }

  lemma ZeroNumeral()
    ensures Numeral(0, 10) == "0"
  {
  }

  /** A numeral padded with zeros still parses to its number. */
  lemma ParsePadded(n: nat, zeros: nat, radix: nat)
    requires n < TWO_64 && 2 <= radix <= 16
    ensures ParseUnsigned(Zeros(zeros) + Numeral(n, radix), radix, TWO_64) == Some(n)
  {
    NumeralValue(n, radix);
    NumeralDigits(n, radix);
    LeadingZeros(zeros, Numeral(n, radix), radix);
    hide Value, Numeral;
    var s := Zeros(zeros) + Numeral(n, radix);
    assert s[0] == (if zeros > 0 then '0' else Numeral(n, radix)[0]);
    assert Numeral(n, radix)[0] in Numeral(n, radix);
  }

  lemma ParsePrintedPart(n: nat, style: Style)
    requires n < TWO_64
    ensures ParseFlexible(PrintPart(n, style)) == Some(n)
    ensures '.' !in PrintPart(n, style)
  {
    hide ParseUnsigned, Numeral;
    var s := PrintPart(n, style);
    match style
    case InDecimal =>
      ParseDecimalPart(n);
      NumeralDigits(n, 10);
    case InOctal(zeros) =>
      ParsePadded(n, 1 + zeros, 8);
      NumeralDigits(n, 8);
      var digits := Numeral(n, 8);
      assert |digits| > 0;
      assert s[0] == '0' && s[1] == (if zeros > 0 then '0' else digits[0]);
      assert digits[0] in digits;
      assert s[..2] == [s[0], s[1]];
    case InHex(upper, zeros) =>
      ParsePadded(n, zeros, 16);
      NumeralDigits(n, 16);
      assert s[2..] == Zeros(zeros) + Numeral(n, 16);
      assert s[..2] == if upper then "0X" else "0x";
  }

  lemma {:induction false} PartsPointwise(parts: seq<string>, nums: seq<nat>)
    requires |parts| == |nums| && forall i | 0 <= i < |parts| :: ParseFlexible(parts[i]) == Some(nums[i])
    ensures ParseParts(parts) == Some(nums)
    decreases |parts|
  {
    hide ParseFlexible;
    if parts != [] {
      var others, rest := nums[1..], parts[1..];
      forall i | 0 <= i < |rest|
        ensures ParseFlexible(rest[i]) == Some(others[i])
      {
        assert rest[i] == parts[i + 1];
      }
      PartsPointwise(rest, others);
      assert nums == [nums[0]] + others;
    }
  }

  /** Putting the parts of an address together gives the address; nothing else puts together to it. */
  lemma AssembleIsInverse(nums: seq<nat>, address: nat)
    requires 1 <= |nums| <= 4 && address < TWO_32
    ensures Assemble(nums) == Some(address) <==> nums == PartsOf(address, |nums|)
  {
    hide Assemble, PartsOf;
    if |nums| == 1 {
      OneOrTwoParts(nums, address);
    } else if |nums| == 2 {
      OneOrTwoParts(nums, address);
    } else if |nums| == 3 {
      ThreeParts(nums, address);
    } else {
      FourNumbers(nums, address);
    }
  }

  lemma OneOrTwoParts(nums: seq<nat>, address: nat)
    requires 1 <= |nums| <= 2 && address < TWO_32
    ensures Assemble(nums) == Some(address) <==> nums == PartsOf(address, |nums|)
  {
    if |nums| == 1 {
      assert nums == [nums[0]];
    } else {
      assert nums == [nums[0], nums[1]];
    }
  }

  lemma ThreeParts(nums: seq<nat>, address: nat)
    requires |nums| == 3 && address < TWO_32
    ensures Assemble(nums) == Some(address) <==> nums == PartsOf(address, 3)
  {
    var a, b, c := nums[0], nums[1], nums[2];
    assert nums == [a, b, c];
    Bytes4(address);
    if b <= 0xFF && c <= 0xFFFF {
      Digits3(a, b, c, address);
    }
  }

  lemma Digits3(a: nat, b: nat, c: nat, address: nat)
    requires b <= 0xFF && c <= 0xFFFF
    ensures a * 0x100_0000 + b * 0x1_0000 + c == address <==>
              a == address / 0x100_0000 && b == address / 0x1_0000 % 0x100 && c == address % 0x1_0000
  {
    Position(a * 0x100 + b, c, address, 0x1_0000);
    Position(a, b, address / 0x1_0000, 0x100);
    DivideTwice(address);
  }

  /** A positional digit is a remainder, and what stands above it is the quotient. */
  lemma Position(high: nat, low: nat, n: nat, base: nat)
    requires base == 0x100 || base == 0x1_0000
    requires low < base
    ensures high * base + low == n <==> high == n / base && low == n % base
  {
    if base == 0x100 {
    } else {
    }
  }

  lemma DivideTwice(n: nat)
    ensures n / 0x100 / 0x100 == n / 0x1_0000
    ensures n / 0x1_0000 / 0x100 == n / 0x100_0000
  {
  }

  lemma FourNumbers(nums: seq<nat>, address: nat)
    requires |nums| == 4 && address < TWO_32
    ensures Assemble(nums) == Some(address) <==> nums == PartsOf(address, 4)
  {
    var a, b, c, d := nums[0], nums[1], nums[2], nums[3];
    assert nums == [a, b, c, d];
    Bytes4(address);
    if b <= 0xFF && c <= 0xFF && d <= 0xFF {
      Digits4(a, b, c, d, address);
    } else {
      assert b in nums && c in nums && d in nums;
    }
  }

  lemma Digits4(a: nat, b: nat, c: nat, d: nat, address: nat)
    requires b <= 0xFF && c <= 0xFF && d <= 0xFF
    ensures a * 0x100_0000 + b * 0x1_0000 + c * 0x100 + d == address <==>
              && a == address / 0x100_0000 && b == address / 0x1_0000 % 0x100
              && c == address / 0x100 % 0x100 && d == address % 0x100
  {
    Position(a * 0x1_0000 + b * 0x100 + c, d, address, 0x100);
    Position(a * 0x100 + b, c, address / 0x100, 0x100);
    Position(a, b, address / 0x1_0000, 0x100);
    DivideTwice(address);
  }

  lemma Bytes4(address: nat)
    requires address < TWO_32
    ensures address / 0x100_0000 < 0x100
  {
  }

  /**
   Every 32-bit address, split into any number of parts from one to four, each part written in any of the
   three radixes, parses back to the address.
   */
  lemma ParsePrintedAddress(address: nat, styles: seq<Style>)
    requires address < TWO_32 && 1 <= |styles| <= 4
    ensures ParseIpv4Literal(PrintAddress(address, styles)) == Some(address)
  {
    hide ParseFlexible, PrintPart, Assemble, PartsOf, ParseParts;
    var nums := PartsOf(address, |styles|);
    PartsAreSmall(address, |styles|);
    var parts := PrintParts(nums, styles);
    forall i | 0 <= i < |parts|
      ensures '.' !in parts[i] && ParseFlexible(parts[i]) == Some(nums[i])
    {
      assert nums[i] in nums;
      ParsePrintedPart(nums[i], styles[i]);
    }
    SplitOfJoin(parts, '.');
    PartsPointwise(parts, nums);
    AssembleIsInverse(nums, address);
  }

  lemma PartsAreSmall(address: nat, count: nat)
    requires address < TWO_32 && 1 <= count <= 4
    ensures forall n <- PartsOf(address, count) :: n < TWO_64
  {
  }

  /** Exactly what the decoder accepts, and as what: the numbers in the text are the parts of the address. */
  lemma AcceptedExactly(host: string, address: nat)
    ensures var parts := Split(host, '.');
            ParseIpv4Literal(host) == Some(address) <==>
              address < TWO_32 && |parts| <= 4 && ParseParts(parts) == Some(PartsOf(address, |parts|))
  {
    hide Assemble, PartsOf, ParseFlexible;
    var parts := Split(host, '.');
    if address < TWO_32 && |parts| <= 4 && ParseParts(parts).Some? {
      AssembleIsInverse(ParseParts(parts).value, address);
    }
  }

  predicate HexForm(s: string, n: nat) {
    |s| >= 2 && s[0] == '0' && (s[1] == 'x' || s[1] == 'X') && SignedNumber(s[2..], 16, n)
  }

  predicate OctalForm(s: string, n: nat) {
    |s| >= 2 && s[0] == '0' && (forall c <- s :: '0' <= c <= '7') && Value(s, 8) == Some(n)
  }

  predicate DecimalForm(s: string, n: nat) {
    s != "" && (s == "0" || s[0] != '0') && SignedNumber(s, 10, n)
  }

  lemma {:induction false} OctalDigits(s: string)
    ensures Value(s, 8).Some? ==> forall c <- s :: '0' <= c <= '7'
  {
    if s != "" {
      var front, last := s[..|s| - 1], s[|s| - 1];
      OctalDigits(front);
      assert s == front + [last];
      assert DigitValue(last, 8).Some? ==> '0' <= last <= '7';
      hide DigitValue;
    }
  }

  lemma {:induction false} DecimalDigits(s: string)
    ensures Value(s, 10).Some? ==> AllDigits(s)
  {
    if s != "" {
      var front, last := s[..|s| - 1], s[|s| - 1];
      DecimalDigits(front);
      assert s == front + [last];
      assert DigitValue(last, 10).Some? ==> '0' <= last <= '9';
      hide DigitValue;
    }
  }

  /**
   Which texts a part may be, and as what it reads: one of three forms, none of which overlaps another, and a
   value of 64 bits. A leading zero with a digit 8 or 9 behind it is no number.
   */
  lemma FlexibleExactly(s: string, n: nat)
    ensures ParseFlexible(s) == Some(n) <==> n < TWO_64 && (HexForm(s, n) || OctalForm(s, n) || DecimalForm(s, n))
  {
    OctalDigits(s);
    DecimalDigits(s);
    hide Value;
    if |s| >= 2 {
      assert s[0] in s && s[1] in s && s[..2] == [s[0], s[1]];
    }
  }

  // ---------------------------------------------------------------------------------------------
  // Strict dotted-quad literals
  // ---------------------------------------------------------------------------------------------

  /** A strict octet: one to three decimal digits, no leading zero, at most 255. */
  function StrictOctet(part: string): Option<nat> {
    if 1 <= |part| <= 3 && AllDigits(part) && (|part| > 1 ==> part[0] != '0')
    then ParseUnsigned(part, 10, 0x100) else None
  }

  /** The strict parser of the standard library, for IPv4. */
  function StrictIpv4(host: string): Option<nat> {
    var parts := Split(host, '.');
    if |parts| != 4 then None
    else
      var a :- StrictOctet(parts[0]);
      var b :- StrictOctet(parts[1]);
      var c :- StrictOctet(parts[2]);
      var d :- StrictOctet(parts[3]);
      Some(a * 0x100_0000 + b * 0x1_0000 + c * 0x100 + d)
  }

  lemma OctetText(n: nat)
    requires n < 0x100
    ensures StrictOctet(Numeral(n, 10)) == Some(n) && '.' !in Numeral(n, 10)
  {
    ParseNumeral(n, 10, 0x100);
    NumeralDigits(n, 10);
    OctetLength(n);
    if n == 0 {
      ZeroNumeral();
    } else {
      NoLeadingZero(n);
    }
    hide Numeral, ParseUnsigned;
    assert Numeral(n, 10)[0] in Numeral(n, 10);
  }

  lemma OctetLength(n: nat)
    requires n < 0x100
    ensures |Numeral(n, 10)| <= 3
  {
    if n >= 10 {
      assert |Numeral(n / 10, 10)| <= 2 by {
        if n >= 100 { assert |Numeral(n / 10 / 10, 10)| == 1; }
      }
    }
  }

  /** Digits without a leading zero are the numeral of their value. */
  lemma {:induction false} CanonicalNumeral(s: string, n: nat)
    requires s != "" && AllDigits(s) && (|s| > 1 ==> s[0] != '0') && Value(s, 10) == Some(n)
    ensures s == Numeral(n, 10)
    decreases |s|
  {
    hide *;
    var front, last := s[..|s| - 1], s[|s| - 1];
    assert s == front + [last];
    var high, low := LastDigit(s, n);
    if |s| == 1 {
      assert front == "";
      OneDigit(low);
    } else {
      assert AllDigits(front) by { FrontDigits(s); }
      LeadingDigit(front, high);
      CanonicalNumeral(front, high);
      NumeralStep(high, low);
    }
  }

  lemma FrontDigits(s: string)
    requires s != "" && AllDigits(s)
    ensures AllDigits(s[..|s| - 1])
  {
    var front := s[..|s| - 1];
    assert forall i | 0 <= i < |front| :: front[i] == s[i] && s[i] in s;
  }

  /** The value of digits is that of all but the last, times ten, plus the last. */
  lemma LastDigit(s: string, n: nat) returns (high: nat, low: nat)
    requires s != "" && AllDigits(s) && Value(s, 10) == Some(n)
    ensures low < 10 && s[|s| - 1] == DigitChar(low) && n == high * 10 + low
    ensures Value(s[..|s| - 1], 10) == Some(high) && (|s| == 1 ==> high == 0)
  {
    assert s[|s| - 1] in s;
    DigitBack(s[|s| - 1]);
    hide DigitValue, DigitChar;
    high, low := Value(s[..|s| - 1], 10).value, DigitValue(s[|s| - 1], 10).value;
  }

  lemma {:induction false} LeadingDigit(s: string, n: nat)
    requires s != "" && s[0] != '0' && AllDigits(s) && Value(s, 10) == Some(n)
    ensures n > 0
    decreases |s|
  {
    hide *;
    var high, low := LastDigit(s, n);
    if |s| == 1 {
      assert low != 0 by { hide *; ZeroDigit(); }
    } else {
      FrontDigits(s);
      LeadingDigit(s[..|s| - 1], high);
    }
  }

  lemma ZeroDigit()
    ensures DigitChar(0) == '0'
  {
  }

  lemma OneDigit(d: nat)
    requires d < 10
    ensures Numeral(d, 10) == [DigitChar(d)]
  {
  }

  lemma NumeralStep(high: nat, low: nat)
    requires high > 0 && low < 10
    ensures Numeral(high * 10 + low, 10) == Numeral(high, 10) + [DigitChar(low)]
  {
    hide DigitChar;
    var n := high * 10 + low;
    assert n / 10 == high && n % 10 == low;
  }

  lemma DigitBack(c: char)
    requires '0' <= c <= '9'
    ensures DigitValue(c, 10).Some? && DigitValue(c, 10).value < 10 && DigitChar(DigitValue(c, 10).value) == c
  {
  }

  lemma OctetIsText(part: string)
    requires StrictOctet(part).Some?
    ensures part == Numeral(StrictOctet(part).value, 10) && StrictOctet(part).value < 0x100
  {
    assert part[0] in part;
    CanonicalNumeral(part, StrictOctet(part).value);
    hide Value, Numeral;
  }

  const DOTTED: seq<Style> := [InDecimal, InDecimal, InDecimal, InDecimal]

  lemma DottedTexts(address: nat)
    requires address < TWO_32
    ensures var nums := PartsOf(address, 4);
            PrintParts(nums, DOTTED)
            == [Numeral(nums[0], 10), Numeral(nums[1], 10), Numeral(nums[2], 10), Numeral(nums[3], 10)]
    ensures forall n <- PartsOf(address, 4) :: n < 0x100
  {
    hide Numeral;
    Bytes4(address);
  }

  lemma StrictOfOctets(host: string, nums: seq<nat>)
    requires |Split(host, '.')| == |nums| == 4 && forall n <- nums :: n < 0x100
    requires forall i | 0 <= i < 4 :: StrictOctet(Split(host, '.')[i]) == Some(nums[i])
    ensures StrictIpv4(host) == Assemble(nums)
  {
    hide StrictOctet, Split;
    assert !(exists n <- nums :: n > 0xFF);
  }

  lemma StrictReads(address: nat)
    requires address < TWO_32
    ensures StrictIpv4(PrintAddress(address, DOTTED)) == Some(address)
  {
    hide StrictOctet, Numeral, PrintParts, PartsOf, StrictIpv4, Assemble, Split, Join;
    DottedTexts(address);
    var nums := PartsOf(address, 4);
    assert nums[0] in nums && nums[1] in nums && nums[2] in nums && nums[3] in nums;
    OctetText(nums[0]);
    OctetText(nums[1]);
    OctetText(nums[2]);
    OctetText(nums[3]);
    SplitOfJoin(PrintParts(nums, DOTTED), '.');
    StrictOfOctets(PrintAddress(address, DOTTED), nums);
    AssembleIsInverse(nums, address);
  }

  lemma StrictIsDotted(host: string)
    requires StrictIpv4(host).Some?
    ensures var address := StrictIpv4(host).value; address < TWO_32 && host == PrintAddress(address, DOTTED)
  {
    hide StrictOctet, Numeral;
    var parts := Split(host, '.');
    OctetIsText(parts[0]);
    OctetIsText(parts[1]);
    OctetIsText(parts[2]);
    OctetIsText(parts[3]);
    var address := StrictIpv4(host).value;
    var read := [StrictOctet(parts[0]).value, StrictOctet(parts[1]).value,
                 StrictOctet(parts[2]).value, StrictOctet(parts[3]).value];
    assert Assemble(read) == Some(address);
    AssembleIsInverse(read, address);
    DottedTexts(address);
    hide PartsOf, Assemble, PrintParts, StrictIpv4;
    assert parts == PrintParts(PartsOf(address, 4), DOTTED);
    JoinOfSplit(host, '.');
  }

  /** The strict parser reads exactly one text as an address: its four bytes in decimal, joined by dots. */
  lemma StrictExactly(host: string, address: nat)
    requires address < TWO_32
    ensures StrictIpv4(host) == Some(address) <==> host == PrintAddress(address, DOTTED)
  {
    hide StrictIpv4, PrintAddress;
    StrictReads(address);
    if StrictIpv4(host).Some? {
      StrictIsDotted(host);
    }
  }

  datatype Address = V4(bits: nat) | V6(bits: nat)

  /** A host that is an IP literal in disguise; `parseV6` stands for the standard IPv6 parser. */
  function ParseIpLiteral(host: string, parseV6: string -> Option<nat>): Option<Address> {
    if StrictIpv4(host).Some? then Some(V4(StrictIpv4(host).value))
    else if parseV6(host).Some? then Some(V6(parseV6(host).value))
    else
      var v4 :- ParseIpv4Literal(host);
      Some(V4(v4))
  }

  lemma StrictIsFlexible(part: string)
    requires StrictOctet(part).Some?
    ensures ParseFlexible(part) == StrictOctet(part) && StrictOctet(part).value < 0x100
  {
    hide Value;
    assert part[0] in part && (|part| > 1 ==> part[1] in part);
  }

  /** What the strict parser reads, the flexible one reads the same way. */
  lemma StrictAgreesWithFlexible(host: string)
    requires StrictIpv4(host).Some?
    ensures ParseIpv4Literal(host) == StrictIpv4(host)
  {
    hide ParseFlexible, StrictOctet;
    var parts := Split(host, '.');
    StrictIsFlexible(parts[0]);
    StrictIsFlexible(parts[1]);
    StrictIsFlexible(parts[2]);
    StrictIsFlexible(parts[3]);
    var nums := [StrictOctet(parts[0]).value, StrictOctet(parts[1]).value,
                 StrictOctet(parts[2]).value, StrictOctet(parts[3]).value];
    PartsPointwise(parts, nums);
    assert forall n <- nums :: n <= 0xFF;
  }

  /** A host is an IPv6 literal exactly when the IPv6 parser reads it and the strict IPv4 parser does not. */
  lemma V6Exactly(host: string, parseV6: string -> Option<nat>, bits: nat)
    ensures ParseIpLiteral(host, parseV6) == Some(V6(bits))
       <==> parseV6(host) == Some(bits)
            && forall address | 0 <= address < TWO_32 :: host != PrintAddress(address, DOTTED)
  {
    hide PrintAddress, ParseIpv4Literal, StrictIpv4;
    forall address: nat | address < TWO_32
      ensures StrictIpv4(host) == Some(address) <==> host == PrintAddress(address, DOTTED)
    {
      StrictExactly(host, address);
    }
    if StrictIpv4(host).Some? {
      StrictIsDotted(host);
    }
  }

  /** So the literal check finds the same IPv4 address whichever of the two parsers gets to the host first. */
  lemma LiteralOrderIrrelevant(host: string, parseV6: string -> Option<nat>)
    requires parseV6(host).None?
    ensures ParseIpLiteral(host, parseV6)
         == (if ParseIpv4Literal(host).Some? then Some(V4(ParseIpv4Literal(host).value)) else None)
  {
    hide StrictIpv4, ParseIpv4Literal;
    if StrictIpv4(host).Some? {
      StrictAgreesWithFlexible(host);
    }
  }
}
