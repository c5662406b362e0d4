/**
 A library that meets every law assumed of the float and base64 functions, so that no theorem under those
 laws is about nothing. Its floats are the natural numbers, and its encoding escapes the separators.
 */
module LawfulLibrary {
  import opened Common
  import opened Text
  import opened Params

  function ReadNatural(s: string): Option<nat> {
    if s == "" then None else Value(s, 10)
  }

  function ExtentOf(n: nat): Extent {
    if n == 0 then Zero else if n < TWO_32 then Whole(n) else Refused
  }

  function EscapeChar(c: char): string {
    match c
    case ':' => "~0"
    case '/' => "~1"
    case '.' => "~2"
    case '~' => "~~"
    case _ => [c]
  }

  function Escape(s: string): string {
    if s == "" then "" else EscapeChar(s[0]) + Escape(s[1..])
  }

  function Unescape(s: string): string {
    if s == "" then ""
    else if s[0] == '~' && |s| >= 2 then
      [match s[1]
       case '0' => ':'
       case '1' => '/'
       case '2' => '.'
       case c => c] + Unescape(s[2..])
    else [s[0]] + Unescape(s[1..])
  }

  lemma UnescapeChar(c: char, others: string)
    ensures Unescape(EscapeChar(c) + others) == [c] + Unescape(others)
    ensures forall x <- EscapeChar(c) :: x != ':' && x != '/' && x != '.'
  {
    var e := EscapeChar(c) + others;
    if |EscapeChar(c)| == 2 {
      assert e[2..] == others && e[0] == '~' && e[1] == EscapeChar(c)[1];
    } else {
      assert e[1..] == others && e[0] == c;
    }
  }

  lemma {:induction false} UnescapeOfEscape(s: string)
    ensures Unescape(Escape(s)) == s
    ensures forall c <- Escape(s) :: c != ':' && c != '/' && c != '.'
  {
    hide EscapeChar, Unescape;
    if s == "" {
      assert Unescape("") == "" by { UnescapeNothing(); }
    } else {
      UnescapeOfEscape(s[1..]);
      UnescapeChar(s[0], Escape(s[1..]));
      assert s == [s[0]] + s[1..];
    }
  }

  lemma UnescapeNothing()
    ensures Unescape("") == ""
  {
  }

  const NATURALS: Library<nat, nat> := Library(
    ReadNatural, Decimal, (n: nat) => n > 0, (n: nat) => false, 0, 1, ReadNatural, Decimal, ExtentOf,
    (n: nat) => n <= 1, Escape, (s: string) => Some(Unescape(s)))

  lemma NaturalsAreLawful()
    ensures Lawful(NATURALS)
  {
    forall n: nat
      ensures ReadNatural(Decimal(n)) == Some(n) && PlainText(Decimal(n))
    {
      NumeralValue(n, 10);
      NumeralDigits(n, 10);
      hide Numeral, Value;
      assert Decimal(n)[0] in Decimal(n);
      assert "None"[0] == 'N';
    }
    assert ReadNatural("0") == Some(0) by { DigitCharValue(0, 10); NumeralValue(0, 10); }
    forall s
      ensures Unescape(Escape(s)) == s && forall c <- Escape(s) :: c != ':' && c != '/' && c != '.'
    {
      UnescapeOfEscape(s);
    }
  }
}
