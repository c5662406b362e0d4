/** Text that the grammars share: numerals in a radix, and splitting and joining at a separator. */
module Text {
  import opened Common

  // ---------------------------------------------------------------------------------------------
  // Numerals
  // ---------------------------------------------------------------------------------------------

  const DIGITS: string := "0123456789abcdef"

  function DigitChar(d: nat): char
    requires d < 16
  {
    DIGITS[d]
  }

  /** `char::to_digit`: the value of a digit, of either case, if it is below the radix. */
  function DigitValue(c: char, radix: nat): (d: Option<nat>)
    ensures d.Some? ==> d.value < radix
  {
    var v := if '0' <= c <= '9' then c as int - '0' as int
             else if 'a' <= c <= 'f' then c as int - 'a' as int + 10
             else if 'A' <= c <= 'F' then c as int - 'A' as int + 10
             else 16;
    if v < radix && v < 16 then Some(v) else None
  }

  /** A number in a radix, without leading zeros. */
  function Numeral(n: nat, radix: nat): (s: string)
    requires 2 <= radix <= 16
    ensures |s| > 0
  {
    if n < radix then [DigitChar(n)] else Numeral(n / radix, radix) + [DigitChar(n % radix)]
  }

  function Decimal(n: nat): string {
    Numeral(n, 10)
  }

  /** A signed number in decimal. */
  function ShowInt(n: int): string {
    if n < 0 then "-" + Decimal(-n) else Decimal(n)
  }

  /** The value of a string of digits; the empty string is 0. */
  function Value(s: string, radix: nat): Option<nat> {
    if s == "" then Some(0)
    else
      var high :- Value(s[..|s| - 1], radix);
      var low :- DigitValue(s[|s| - 1], radix);
      Some(high * radix + low)
  }

  /**
   `from_str_radix` and `parse` for an unsigned type of `bound` values: an optional `+`, at least one
   digit, and no overflow. An accumulator that once overflows never comes back below the bound.
   */
  function ParseUnsigned(s: string, radix: nat, bound: nat): (n: Option<nat>)
    ensures n.Some? ==> n.value < bound
  {
    var digits := if |s| > 0 && s[0] == '+' then s[1..] else s;
    if digits == "" then None
    else
      var n :- Value(digits, radix);
      if n < bound then Some(n) else None
  }

  /** At least one digit of the radix, behind a plus sign or not. */
  predicate SignedNumber(s: string, radix: nat, n: nat) {
    var digits := if |s| > 0 && s[0] == '+' then s[1..] else s;
    digits != "" && Value(digits, radix) == Some(n)
  }

  /** Exactly which texts an unsigned type reads, and as what. */
  lemma UnsignedExactly(s: string, radix: nat, bound: nat, n: nat)
    ensures ParseUnsigned(s, radix, bound) == Some(n) <==> n < bound && SignedNumber(s, radix, n)
  {
    hide Value;
  }

  /** Exactly which characters are digits of a radix, letters in either case. */
  lemma DigitTexts(c: char, radix: nat, d: nat)
    requires radix <= 16 && d < radix
    ensures DigitValue(c, radix) == Some(d) <==> c == "0123456789abcdef"[d] || c == "0123456789ABCDEF"[d]
  {
  }

  lemma DigitCharValue(d: nat, radix: nat)
    requires d < radix <= 16
    ensures DigitValue(DigitChar(d), radix) == Some(d)
  {
  }

  lemma {:induction false} NumeralValue(n: nat, radix: nat)
    requires 2 <= radix <= 16
    ensures Value(Numeral(n, radix), radix) == Some(n)
  {
    hide Value, DigitChar;
    if n < radix {
      EmptyValue(radix);
      ValueSnoc("", 0, n, radix);
      assert "" + [DigitChar(n)] == [DigitChar(n)];
    } else {
      NumeralValue(n / radix, radix);
      ValueSnoc(Numeral(n / radix, radix), n / radix, n % radix, radix);
      DivMod(n, radix);
    }
  }

  lemma EmptyValue(radix: nat)
    ensures Value("", radix) == Some(0)
  {
  }

  /** One more digit. */
  lemma ValueSnoc(s: string, high: nat, low: nat, radix: nat)
    requires low < radix <= 16 && Value(s, radix) == Some(high)
    ensures Value(s + [DigitChar(low)], radix) == Some(high * radix + low)
  {
    hide DigitChar, DigitValue;
    DigitCharValue(low, radix);
    var all := s + [DigitChar(low)];
    assert all[..|all| - 1] == s;
  }

  lemma DivMod(n: nat, radix: nat)
    requires radix > 0
    ensures n / radix * radix + n % radix == n
  {
  }

  /** A numeral is made of digits of its radix only. */
  lemma {:induction false} NumeralDigits(n: nat, radix: nat)
    requires 2 <= radix <= 16
    ensures forall c <- Numeral(n, radix) :: '0' <= c <= '9' || 'a' <= c <= 'f'
    ensures radix <= 10 ==> forall c <- Numeral(n, radix) :: '0' <= c <= '9'
  {
    hide DigitChar;
    if n < radix {
      DigitCharRange(n);
    } else {
      NumeralDigits(n / radix, radix);
      DigitCharRange(n % radix);
    }
  }

  lemma DigitCharRange(d: nat)
    requires d < 16
    ensures var c := DigitChar(d); ('0' <= c <= '9' || 'a' <= c <= 'f') && (d < 10 ==> '0' <= c <= '9')
  {
  }

  /** Parsing a printed number gives it back. */
  lemma ParseNumeral(n: nat, radix: nat, bound: nat)
    requires 2 <= radix <= 16 && n < bound
    ensures ParseUnsigned(Numeral(n, radix), radix, bound) == Some(n)
  {
    hide Value, Numeral;
    NumeralValue(n, radix);
    NumeralDigits(n, radix);
    assert Numeral(n, radix)[0] in Numeral(n, radix);
  }

  lemma NumeralInjective(m: nat, n: nat, radix: nat)
    requires 2 <= radix <= 16 && Numeral(m, radix) == Numeral(n, radix)
    ensures m == n
  {
    NumeralValue(m, radix);
    NumeralValue(n, radix);
  }

  function Zeros(k: nat): (s: string)
    ensures |s| == k && forall c <- s :: c == '0'
  {
    seq(k, i => '0')
  }

  lemma {:induction false} LeadingZeros(k: nat, s: string, radix: nat)
    requires radix > 0
    ensures Value(Zeros(k) + s, radix) == Value(s, radix)
    decreases k + |s|
  {
    var z := Zeros(k) + s;
    if s == "" {
      assert z == Zeros(k);
      if k > 0 {
        assert z[..k - 1] == Zeros(k - 1) + "";
        LeadingZeros(k - 1, "", radix);
        assert z[k - 1] == '0';
      }
    } else {
      assert z[..|z| - 1] == Zeros(k) + s[..|s| - 1];
      LeadingZeros(k, s[..|s| - 1], radix);
    }
  }

  // ---------------------------------------------------------------------------------------------
  // Splitting and joining
  // ---------------------------------------------------------------------------------------------

  /** The first position of `c`. */
  function IndexOf(s: string, c: char): (i: nat)
    requires c in s
    ensures i < |s| && s[i] == c && c !in s[..i]
  {
    if s[0] == c then 0
    else
      assert s == [s[0]] + s[1..];
      var i := 1 + IndexOf(s[1..], c);
      assert s[..i] == [s[0]] + s[1..][..i - 1];
      i
  }

  /** `str::split`: the pieces between separators, always at least one. */
  function Split(s: string, c: char): (parts: seq<string>)
    ensures |parts| > 0
    decreases |s|
  {
    if c in s then [s[..IndexOf(s, c)]] + Split(s[IndexOf(s, c) + 1..], c) else [s]
  }

  function Join(parts: seq<string>, c: char): string {
    if |parts| == 0 then ""
    else if |parts| == 1 then parts[0]
    else parts[0] + [c] + Join(parts[1..], c)
  }

  lemma {:induction false} SplitPieces(s: string, c: char)
    ensures forall p <- Split(s, c) :: c !in p
    decreases |s|
  {
    if c in s {
      SplitPieces(s[IndexOf(s, c) + 1..], c);
    }
  }

  lemma JoinStep(head: string, others: seq<string>, c: char)
    requires |others| > 0
    ensures Join([head] + others, c) == head + [c] + Join(others, c)
  {
    var all := [head] + others;
    assert all[1..] == others && all[0] == head;
  }

  lemma {:induction false} JoinOfSplit(s: string, c: char)
    ensures Join(Split(s, c), c) == s
    decreases |s|
  {
    if c in s {
      var i := IndexOf(s, c);
      hide IndexOf;
      var head, tail := s[..i], s[i + 1..];
      var others := Split(tail, c);
      JoinOfSplit(tail, c);
      JoinStep(head, others, c);
      assert head + [c] + tail == s;
    }
  }

  lemma FirstSeparator(head: string, c: char, tail: string)
    requires c !in head
    ensures c in head + [c] + tail
    ensures IndexOf(head + [c] + tail, c) == |head|
    ensures (head + [c] + tail)[..|head|] == head && (head + [c] + tail)[|head| + 1..] == tail
  {
    var s := head + [c] + tail;
    assert s[|head|] == c;
    assert s[..|head|] == head;
  }

  lemma SplitStep(head: string, c: char, tail: string)
    requires c !in head
    ensures Split(head + [c] + tail, c) == [head] + Split(tail, c)
  {
    hide IndexOf;
    FirstSeparator(head, c, tail);
  }

  lemma {:induction false} SplitOfJoin(parts: seq<string>, c: char)
    requires |parts| > 0 && forall p <- parts :: c !in p
    ensures Split(Join(parts, c), c) == parts
    decreases |parts|
  {
    if |parts| == 1 {
      assert parts == [parts[0]];
    } else {
      var head, others := parts[0], parts[1..];
      SplitOfJoin(others, c);
      SplitStep(head, c, Join(others, c));
      hide Split;
      assert parts == [head] + others;
    }
  }

  lemma {:induction false} SplitWithout(s: string, c: char)
    requires c !in s
    ensures Split(s, c) == [s]
  {
  }
}
