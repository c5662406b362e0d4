/**
 The other spellings of an option: each shorthand means the same as the full form that the printer writes,
 on every input, and a segment with too few or too many arguments means nothing.
 */
module UrlShorthands {
  import opened Common
  import opened Text
  import opened Params
  import opened UrlOptions
  import opened UrlOrder
  import opened UrlPrint

  // ---------------------------------------------------------------------------------------------
  // Padding
  // ---------------------------------------------------------------------------------------------

  lemma ReadsOptional(args: seq<string>, i: nat, n: Option<nat>)
    requires n.Some? ==> n.value < TWO_32
    requires if i < |args| then args[i] == PrintSlot(n, Decimal) else n.None?
    ensures Optional(Slot(args, i), ParseU32) == Some(n)
  {
    hide Numeral, Value;
    if n.Some? {
      ParseNumeral(n.value, 10, TWO_32);
    }
  }

  /**
   Any of the three later slots may be blank, and blanks at the end may be missing. What is not there is
   copied from the opposite side if that was given, and from the top otherwise.
   */
  lemma PaddingCascade(top: nat, right: Option<nat>, bottom: Option<nat>, left: Option<nat>, count: nat)
    requires top < TWO_32 && (right.Some? ==> right.value < TWO_32)
    requires (bottom.Some? ==> bottom.value < TWO_32) && (left.Some? ==> left.value < TWO_32)
    requires 1 <= count <= 4
    requires (count < 4 ==> left.None?) && (count < 3 ==> bottom.None?) && (count < 2 ==> right.None?)
    ensures var all := [Decimal(top), PrintSlot(right, Decimal), PrintSlot(bottom, Decimal), PrintSlot(left, Decimal)];
            var p := ParsePadding(all[..count]);
            && p.Some? && p.value.top == top
            && (right.Some? ==> p.value.right == right.value) && (right.None? ==> p.value.right == p.value.top)
            && (bottom.Some? ==> p.value.bottom == bottom.value) && (bottom.None? ==> p.value.bottom == p.value.top)
            && (left.Some? ==> p.value.left == left.value) && (left.None? ==> p.value.left == p.value.right)
  {
    hide Numeral, Value, Optional, Slot, PrintSlot;
    var all := [Decimal(top), PrintSlot(right, Decimal), PrintSlot(bottom, Decimal), PrintSlot(left, Decimal)];
    var args := all[..count];
    PrintedTop(top);
    ReadsOptional(args, 0, Some(top));
    ReadsOptional(args, 1, right);
    ReadsOptional(args, 2, bottom);
    ReadsOptional(args, 3, left);
  }

  lemma PrintedTop(top: nat)
    ensures PrintSlot(Some(top), Decimal) == Decimal(top)
  {
  }

  // ---------------------------------------------------------------------------------------------
  // Colours
  // ---------------------------------------------------------------------------------------------

  lemma PairValue(a: char, b: char)
    ensures Value([a, b], 16)
         == if DigitValue(a, 16).Some? && DigitValue(b, 16).Some?
            then Some(DigitValue(a, 16).value * 16 + DigitValue(b, 16).value) else None
  {
    hide DigitValue;
    var s := [a, b];
    assert s[..1] == [a] && [a][..0] == "" && Value("", 16) == Some(0);
    assert Value([a], 16) == if DigitValue(a, 16).Some? then Some(DigitValue(a, 16).value) else None;
  }

  lemma PairParses(a: char, b: char)
    requires DigitValue(a, 16).Some? && DigitValue(b, 16).Some?
    ensures ParseUnsigned([a, b], 16, 256) == Some(DigitValue(a, 16).value * 16 + DigitValue(b, 16).value)
  {
    PairValue(a, b);
    hide Value;
    assert a != '+';
  }

  /** Three hex digits are six with each one doubled, whatever the three characters are. */
  lemma HexShorthand(a: char, b: char, c: char)
    ensures ParseHexColor([a, b, c]) == ParseHexColor([a, a, b, b, c, c])
  {
    var short, long := [a, b, c], [a, a, b, b, c, c];
    assert forall x :: x in short <==> x in long;
    assert long[0..2] == [a, a] && long[2..4] == [b, b] && long[4..6] == [c, c];
    assert a in short && b in short && c in short;
    if DigitValue(a, 16).Some? && DigitValue(b, 16).Some? && DigitValue(c, 16).Some? {
      PairParses(a, a);
      PairParses(b, b);
      PairParses(c, c);
      hide DigitValue, ParseUnsigned;
    } else {
      hide ParseUnsigned;
      assert exists x <- short :: DigitValue(x, 16).None?;
      assert exists x <- long :: DigitValue(x, 16).None?;
    }
  }

  /** A background in hex is the background in decimal. */
  lemma BackgroundForms(c: Rgb)
    requires ValidRgb(c)
    ensures ParseBackground([PrintHex(c)]) == ParseBackground([Decimal(c.r), Decimal(c.g), Decimal(c.b)]) == Some(c)
  {
    hide Numeral, Value, ParseHexColor, PrintHex;
    ReadsHex(c);
    ParseNumeral(c.r, 10, 256);
    ParseNumeral(c.g, 10, 256);
    ParseNumeral(c.b, 10, 256);
  }

  // ---------------------------------------------------------------------------------------------
  // Numbers
  // ---------------------------------------------------------------------------------------------

  lemma ReadsSigned(n: int)
    requires -0x8000_0000 <= n < 0x8000_0000
    ensures ParseI32(ShowInt(n)) == Some(n)
  {
    hide Numeral, Value;
    if n < 0 {
      NumeralValue(-n, 10);
      var s := ShowInt(n);
      assert s[0] == '-' && s[1..] == Decimal(-n);
    } else {
      ReadsUnsigned(n);
    }
  }

  /** An angle of any sign and size, if it is a multiple of 90, becomes the one of 0 to 270 it is equal to. */
  lemma AngleNormalised(n: int)
    requires -0x8000_0000 <= n < 0x8000_0000
    ensures var a := ParseRotateAngle(ShowInt(n));
            && (a.Some? <==> n % 90 == 0)
            && (a.Some? ==> 0 <= a.value < 360 && exists turns: int :: n == a.value + 360 * turns)
  {
    hide ParseI32, ShowInt;
    ReadsSigned(n);
    assert n == n % 360 + 360 * (n / 360);
  }

  /** The texts that read as 0: one zero or more, with or without a plus sign. */
  predicate IsZeroText(s: string) {
    var digits := if |s| > 0 && s[0] == '+' then s[1..] else s;
    digits != "" && forall c <- digits :: c == '0'
  }

  lemma {:induction false} ZeroValue(s: string)
    ensures Value(s, 10) == Some(0) <==> forall c <- s :: c == '0'
  {
    hide DigitValue;
    if s != "" {
      var front, last := s[..|s| - 1], s[|s| - 1];
      ZeroValue(front);
      ZeroDigit(last);
      assert s == front + [last] && last in s && forall c <- front :: c in s;
      assert (forall c <- s :: c == '0') <==> (forall c <- front :: c == '0') && last == '0';
    }
  }

  lemma ZeroDigit(c: char)
    ensures DigitValue(c, 10) == Some(0) <==> c == '0'
  {
  }

  lemma ZeroTexts(s: string, bound: nat)
    requires bound > 0
    ensures ParseUnsigned(s, 10, bound) == Some(0) <==> IsZeroText(s)
  {
    hide Value;
    ZeroValue(if |s| > 0 && s[0] == '+' then s[1..] else s);
  }

  /** Exactly the texts that read as 0 mean unset: in both slots of `rs`, and for `mw`, `mh` and `mb`. */
  lemma ZeroIsUnset<F, D>(lib: Library<F, D>, arg: string)
    ensures ParseDimension(arg) == Some(None) <==> IsZeroText(arg)
    ensures DecodeSingle(lib, MW, arg) == Some(SetMinWidth(None)) <==> IsZeroText(arg)
    ensures DecodeSingle(lib, MH, arg) == Some(SetMinHeight(None)) <==> IsZeroText(arg)
    ensures DecodeSingle(lib, MB, arg) == Some(SetMaxBytes(None)) <==> IsZeroText(arg)
  {
    ZeroTexts(arg, TWO_32);
    ZeroTexts(arg, TWO_64);
    hide ParseUnsigned, IsZeroText;
  }

  /** Unset takes back what an earlier segment of its code set, and touches nothing else. */
  lemma ZeroTakesBack<F, D>(n: Option<nat>, p: Progress<F, D>)
    ensures var u: Update<F, D> := SetMinWidth(None);
            Assign(u, Assign(SetMinWidth(n), p)) == Assign(u, p) && (p.opts.minWidth.None? ==> Assign(u, p) == p)
    ensures var u: Update<F, D> := SetMinHeight(None);
            Assign(u, Assign(SetMinHeight(n), p)) == Assign(u, p) && (p.opts.minHeight.None? ==> Assign(u, p) == p)
    ensures var u: Update<F, D> := SetMaxBytes(None);
            Assign(u, Assign(SetMaxBytes(n), p)) == Assign(u, p) && (p.opts.maxBytes.None? ==> Assign(u, p) == p)
  {
  }

  /** One zoom factor is both factors. */
  lemma ZoomShorthand<F, D>(lib: Library<F, D>, s: string)
    ensures ParseZoom(lib, [s]) == ParseZoom(lib, [s, s])
  {
    hide ParsePositive;
  }

  /** Of all texts, `1` and `true` mean true, and `0` and `false` mean false. */
  lemma Booleans(s: string)
    ensures ParseBool(s) == Some(true) <==> s == "1" || s == "true"
    ensures ParseBool(s) == Some(false) <==> s == "0" || s == "false"
  {
  }

  /** The pairs of an `fq` segment with every format `jpeg` called `jpg`. */
  function Renamed(args: seq<string>): (r: seq<string>)
    ensures |r| == |args|
    decreases |args|
  {
    if |args| < 2 then args
    else
      var n := |args|;
      Renamed(args[..n - 2]) + [if args[n - 2] == "jpeg" then "jpg" else args[n - 2], args[n - 1]]
  }

  /** In any number of pairs, `jpeg` and `jpg` mean the same. */
  lemma {:induction false} FormatSynonym<F, D>(args: seq<string>)
    ensures ParseFormatQuality<F, D>(Renamed(args)) == ParseFormatQuality<F, D>(args)
    decreases |args|
  {
    hide ParseBounded;
    if |args| >= 2 {
      var n, renamed := |args|, Renamed(args);
      assert renamed[..n - 2] == Renamed(args[..n - 2]);
      FormatSynonym<F, D>(args[..n - 2]);
    }
  }

  // ---------------------------------------------------------------------------------------------
  // Crop and gravity
  // ---------------------------------------------------------------------------------------------

  lemma {:induction false} LastCropCounts<F, D>(us: seq<Update<F, D>>, p: Progress<F, D>)
    ensures var crops := OfCode(us, C);
            AssignAll(us, p).cropRaw
            == if crops == [] then p.cropRaw
               else if crops[|crops| - 1].SetCrop? then Some(crops[|crops| - 1].raw) else None
    decreases |us|
  {
    hide AssignOptions;
    if us != [] {
      LastCropCounts(us[1..], Assign(us[0], p));
      var crops, others := OfCode(us, C), OfCode(us[1..], C);
      if us[0].Code() == C {
        assert crops == [us[0]] + others;
      }
    }
  }

  /**
   The crop is the last `c` segment's, wherever the `gr` segments stand; without a gravity of its own it
   takes the gravity the options end up with.
   */
  lemma CropTakesFinalGravity<F, D>(lib: Library<F, D>, segments: seq<string>)
    requires ParseOptions(lib, segments).Ok?
    ensures var o := ParseOptions(lib, segments).value;
            var crops := OfCode(DecodeAll(lib, segments).value, C);
            && (o.crop.None? <==> crops == [])
            && (crops != [] ==>
                  && crops[|crops| - 1].SetCrop?
                  && var raw := crops[|crops| - 1].raw;
                     && o.crop.value.width == raw.width && o.crop.value.height == raw.height
                     && (raw.gravity.Some? ==> o.crop.value.gravity == raw.gravity.value)
                     && (raw.gravity.None? ==> o.crop.value.gravity == o.gravity))
  {
    hide Decode, Assign;
    var us := DecodeAll(lib, segments).value;
    LastCropCounts(us, Start(lib));
    OfCodeHasCode(us, C);
    var crops := OfCode(us, C);
    if crops != [] {
      assert crops[|crops| - 1] in crops;
    }
  }

  lemma {:induction false} OfCodeHasCode<F, D>(us: seq<Update<F, D>>, code: Code)
    ensures forall u <- OfCode(us, code) :: u.Code() == code
    decreases |us|
  {
    if us != [] {
      OfCodeHasCode(us[1..], code);
    }
  }

  // ---------------------------------------------------------------------------------------------
  // How many arguments
  // ---------------------------------------------------------------------------------------------

  /** The least and the greatest number of arguments of a code; `fq` has no greatest. */
  function Arity(code: Code): (nat, Option<nat>) {
    match code
    case RS => (3, Some(3))
    case FQ => (2, None)
    case JPGO => (1, Some(2))
    case BG => (1, Some(3))
    case C => (2, Some(5))
    case GR => (1, Some(3))
    case FL => (0, Some(2))
    case T => (1, Some(4))
    case PD => (1, Some(4))
    case Z => (1, Some(2))
    case WM => (1, Some(5))
    case WMS => (2, Some(2))
    case _ => (1, Some(1))
  }

  /** A segment with a wrong number of arguments is refused. */
  lemma ArityHolds<F, D>(lib: Library<F, D>, code: Code, args: seq<string>)
    requires DecodeArgs(lib, code, args).Some?
    ensures Arity(code).0 <= |args| && (Arity(code).1.Some? ==> |args| <= Arity(code).1.value)
    ensures code.FQ? ==> |args| % 2 == 0
    ensures code.BG? || code.GR? ==> |args| != 2
  {
    hide Optional, ParseDimension, ParseHexColor, ParseBounded, ParseCropDimension, ReadAnchor, ReadResizeType,
         ParsePositive, DecodeSingle, ParseFormatQuality;
  }
}
