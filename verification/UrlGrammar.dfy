/**
 Exactly which texts the options accept. For each kind of argument the texts that read, the value they read as,
 and everything else refused; and which error a refused segment gives.
 */
module UrlGrammar {
  import opened Common
  import opened Text
  import opened Params
  import opened UrlOptions
  import opened UrlOrder
  import opened UrlShorthands

  // ---------------------------------------------------------------------------------------------
  // Codes and names
  // ---------------------------------------------------------------------------------------------

  /** The 28 codes are these texts and no other. */
  lemma CodeTexts(s: string)
    ensures ReadCode(s) == Some(RS) <==> s == "rs"
    ensures ReadCode(s) == Some(Q) <==> s == "q"
    ensures ReadCode(s) == Some(FQ) <==> s == "fq"
    ensures ReadCode(s) == Some(WEBPO) <==> s == "webpo"
    ensures ReadCode(s) == Some(JPGO) <==> s == "jpgo"
    ensures ReadCode(s) == Some(MB) <==> s == "mb"
    ensures ReadCode(s) == Some(BL) <==> s == "bl"
    ensures ReadCode(s) == Some(G) <==> s == "g"
    ensures ReadCode(s) == Some(EL) <==> s == "el"
    ensures ReadCode(s) == Some(BG) <==> s == "bg"
    ensures ReadCode(s) == Some(AR) <==> s == "ar"
    ensures ReadCode(s) == Some(SM) <==> s == "sm"
    ensures ReadCode(s) == Some(C) <==> s == "c"
    ensures ReadCode(s) == Some(GR) <==> s == "gr"
  {
  }

  lemma MoreCodeTexts(s: string)
    ensures ReadCode(s) == Some(ROT) <==> s == "rot"
    ensures ReadCode(s) == Some(FL) <==> s == "fl"
    ensures ReadCode(s) == Some(T) <==> s == "t"
    ensures ReadCode(s) == Some(EX) <==> s == "ex"
    ensures ReadCode(s) == Some(PD) <==> s == "pd"
    ensures ReadCode(s) == Some(Z) <==> s == "z"
    ensures ReadCode(s) == Some(DPR) <==> s == "dpr"
    ensures ReadCode(s) == Some(MW) <==> s == "mw"
    ensures ReadCode(s) == Some(MH) <==> s == "mh"
    ensures ReadCode(s) == Some(WM) <==> s == "wm"
    ensures ReadCode(s) == Some(WMU) <==> s == "wmu"
    ensures ReadCode(s) == Some(WMS) <==> s == "wms"
    ensures ReadCode(s) == Some(WMR) <==> s == "wmr"
    ensures ReadCode(s) == Some(WMSH) <==> s == "wmsh"
  {
  }

  lemma CompressionTexts(s: string)
    ensures ParseWebp(s) == Some(true) <==> s == "lossless"
    ensures ParseWebp(s) == Some(false) <==> s == "lossy"
  {
  }

  // ---------------------------------------------------------------------------------------------
  // Numbers
  // ---------------------------------------------------------------------------------------------

  /** Qualities and colour components: decimal numbers up to a maximum that fits a byte. */
  lemma BoundedNumbers(s: string, max: nat, n: nat)
    requires max < 256
    ensures ParseBounded(s, max) == Some(n) <==> n <= max && SignedNumber(s, 10, n)
  {
    if SignedNumber(s, 10, n) {
      UnsignedExactly(s, 10, 256, n);
    }
    if ParseU8(s).Some? {
      UnsignedExactly(s, 10, 256, ParseU8(s).value);
    }
    hide ParseUnsigned, SignedNumber;
  }

  /** Dimensions fit 32 bits and maximum bytes 64, 0 standing for absent. */
  lemma Dimensions(s: string, n: nat)
    ensures ParseDimension(s) == Some(Some(n)) <==> 0 < n < TWO_32 && SignedNumber(s, 10, n)
    ensures ParseMaxBytes(s) == Some(Some(n)) <==> 0 < n < TWO_64 && SignedNumber(s, 10, n)
  {
    UnsignedExactly(s, 10, TWO_32, n);
    UnsignedExactly(s, 10, TWO_64, n);
    hide ParseUnsigned, SignedNumber;
  }

  /** Angles before they are normalised: 32-bit integers with either sign. */
  lemma SignedIntegers(s: string, n: int)
    ensures ParseI32(s) == Some(n)
       <==> || (0 <= n < 0x8000_0000 && SignedNumber(s, 10, n))
            || (-0x8000_0000 <= n <= 0 && |s| >= 2 && s[0] == '-' && Value(s[1..], 10) == Some(-n))
  {
    if n >= 0 {
      UnsignedExactly(s, 10, 0x8000_0000, n);
    }
    if |s| > 0 && s[0] == '-' {
      MinusIsNoDigit(s, n);
    }
    hide Value;
  }

  lemma MinusIsNoDigit(s: string, n: int)
    requires |s| > 0 && s[0] == '-'
    ensures n >= 0 ==> !SignedNumber(s, 10, n)
  {
    if Value(s, 10).Some? {
      FirstIsDigit(s);
    }
  }

  lemma {:induction false} FirstIsDigit(s: string)
    requires |s| > 0 && Value(s, 10).Some?
    ensures '0' <= s[0] <= '9'
    decreases |s|
  {
    if |s| > 1 {
      assert s[..|s| - 1][0] == s[0];
      FirstIsDigit(s[..|s| - 1]);
    }
  }

  // ---------------------------------------------------------------------------------------------
  // Colours, crops, gravities
  // ---------------------------------------------------------------------------------------------

  predicate HexDigits(s: string) {
    forall c <- s :: DigitValue(c, 16).Some?
  }

  /** A hex colour is three or six hex digits, of either case; six are the three components in order. */
  lemma HexColors(s: string)
    ensures ParseHexColor(s).Some? <==> (|s| == 3 || |s| == 6) && HexDigits(s)
    ensures |s| == 6 && HexDigits(s) ==>
              ParseHexColor(s) == Some(Rgb(HexPair(s[0], s[1]), HexPair(s[2], s[3]), HexPair(s[4], s[5])))
  {
    if |s| == 3 && HexDigits(s) {
      assert s[0] in s && s[1] in s && s[2] in s;
      hide DigitValue;
    } else if |s| == 6 && HexDigits(s) {
      assert s[0] in s && s[1] in s && s[2] in s && s[3] in s && s[4] in s && s[5] in s;
      PairParses(s[0], s[1]);
      PairParses(s[2], s[3]);
      PairParses(s[4], s[5]);
      assert s[0..2] == [s[0], s[1]] && s[2..4] == [s[2], s[3]] && s[4..6] == [s[4], s[5]];
      hide DigitValue, ParseUnsigned;
    } else {
      hide DigitValue, ParseUnsigned;
    }
  }

  function HexPair(high: char, low: char): nat
    requires DigitValue(high, 16).Some? && DigitValue(low, 16).Some?
  {
    DigitValue(high, 16).value * 16 + DigitValue(low, 16).value
  }

  /** A background is a hex colour, or three decimal components. */
  lemma Backgrounds(args: seq<string>)
    ensures ParseBackground(args).Some?
       <==> || (|args| == 1 && ParseHexColor(args[0]).Some?)
            || (|args| == 3 && forall a <- args :: exists n: nat :: n <= 255 && SignedNumber(a, 10, n))
  {
    hide ParseHexColor, ParseBounded, SignedNumber;
    if |args| == 3 {
      forall a | a in args
        ensures ParseBounded(a, 255).Some? <==> exists n: nat :: n <= 255 && SignedNumber(a, 10, n)
      {
        if ParseBounded(a, 255).Some? {
          BoundedNumbers(a, 255, ParseBounded(a, 255).value);
        }
        if n: nat :| n <= 255 && SignedNumber(a, 10, n) {
          BoundedNumbers(a, 255, n);
        }
      }
      assert args[0] in args && args[1] in args && args[2] in args;
      assert args == [args[0], args[1], args[2]];
    }
  }

  /** A crop dimension is any number that is not refused; what it reads as depends on its size alone. */
  lemma CropDimensions<F, D>(lib: Library<F, D>, s: string)
    ensures lib.readD(s).None? || lib.extent(lib.readD(s).value).Refused? ==> ParseCropDimension(lib, s).None?
    ensures ParseCropDimension(lib, s).Some? ==>
              match ParseCropDimension(lib, s).value
              case Full => lib.readD(s).Some? && lib.extent(lib.readD(s).value).Zero?
              case Relative(f) => lib.readD(s) == Some(f) && lib.extent(f).Fraction?
              case Absolute(n) => lib.readD(s).Some? && lib.extent(lib.readD(s).value) == Whole(n)
  {
  }

  /** A gravity is one anchor, or `fp` and two numbers within the unit interval; nothing else. */
  lemma Gravities<F, D>(lib: Library<F, D>, tokens: seq<string>, g: Gravity<D>)
    ensures ParseGravity(lib, tokens) == Some(g)
       <==> || (g.Anchored? && |tokens| == 1 && ReadAnchor(tokens[0]) == Some(g.anchor))
            || (g.FocusPoint? && |tokens| == 3 && tokens[0] == "fp" && lib.readD(tokens[1]) == Some(g.x)
                && lib.readD(tokens[2]) == Some(g.y) && lib.inUnit(g.x) && lib.inUnit(g.y))
  {
    hide ReadAnchor;
  }

  // ---------------------------------------------------------------------------------------------
  // Format qualities
  // ---------------------------------------------------------------------------------------------

  /** Every pair is a known format with a quality up to 100. */
  predicate GoodPairs(args: seq<string>) {
    && |args| % 2 == 0
    && forall i | 0 <= i < |args| / 2 ::
         args[2 * i] in {"jpg", "jpeg", "webp"} && ParseBounded(args[2 * i + 1], 100).Some?
  }

  /** The quality of the last pair whose format is one of the names. */
  function LastQuality(args: seq<string>, names: set<string>): Option<nat> {
    if |args| < 2 then None
    else if args[|args| - 2] in names then ParseBounded(args[|args| - 1], 100)
    else LastQuality(args[..|args| - 2], names)
  }

  /** `fq` accepts exactly lists of good pairs, and each format gets the quality of its last pair. */
  lemma {:induction false} FormatQualities<F, D>(args: seq<string>)
    ensures ParseFormatQuality<F, D>(args).Some? <==> GoodPairs(args)
    ensures GoodPairs(args) ==>
              ParseFormatQuality<F, D>(args)
              == Some(SetFormatQuality(LastQuality(args, {"jpg", "jpeg"}), LastQuality(args, {"webp"})))
    decreases |args|
  {
    hide ParseBounded;
    if |args| >= 2 {
      var front := args[..|args| - 2];
      FormatQualities<F, D>(front);
      LastPair(args);
      hide GoodPairs;
    }
  }

  lemma LastPair(args: seq<string>)
    requires |args| >= 2
    ensures GoodPairs(args)
       <==> GoodPairs(args[..|args| - 2]) && args[|args| - 2] in {"jpg", "jpeg", "webp"}
            && ParseBounded(args[|args| - 1], 100).Some?
  {
    hide ParseBounded;
    var front, h := args[..|args| - 2], |args| / 2 - 1;
    if |args| % 2 == 0 {
      assert args[2 * h] == args[|args| - 2] && args[2 * h + 1] == args[|args| - 1];
      assert forall i | 0 <= i < h :: front[2 * i] == args[2 * i] && front[2 * i + 1] == args[2 * i + 1];
    }
  }

  // ---------------------------------------------------------------------------------------------
  // Missing and blank slots
  // ---------------------------------------------------------------------------------------------

  /** A missing slot at the end is a blank one, for every code with optional slots. */
  lemma MissingIsBlank<F, D>(lib: Library<F, D>, code: Code, args: seq<string>)
    requires code.JPGO? || code.FL? || code.T? || code.PD? || code.WM?
    requires Arity(code).0 <= |args| < Arity(code).1.value
    ensures DecodeArgs(lib, code, args + [""]) == DecodeArgs(lib, code, args)
  {
    var longer := args + [""];
    assert forall i | 0 <= i < 5 :: Slot(longer, i) == Slot(args, i);
    assert |args| > 0 ==> longer[0] == args[0];
    hide Slot, Optional, ParseHexColor, ParseBool, ParseU32, ReadAnchor;
  }

  /** A blank flag of a trim is false, and a blank colour no colour. */
  lemma BlankTrimSlots<F, D>(lib: Library<F, D>, threshold: string, color: string, hor: string, ver: string)
    ensures ParseTrim(lib, [threshold, color, "", ver]) == ParseTrim(lib, [threshold, color, "false", ver])
    ensures ParseTrim(lib, [threshold, color, hor, ""]) == ParseTrim(lib, [threshold, color, hor, "false"])
    ensures ParseTrim(lib, [threshold, "", hor, ver]).Some? ==>
              ParseTrim(lib, [threshold, "", hor, ver]).value.color == None
  {
    hide ParseHexColor;
  }

  // ---------------------------------------------------------------------------------------------
  // Refusals
  // ---------------------------------------------------------------------------------------------

  /** An unknown code is reported as such; a known one with bad arguments is reported with the whole segment. */
  lemma SegmentErrors<F, D>(lib: Library<F, D>, segment: string, e: ParseError)
    ensures Decode(lib, segment) == Err(e) ==>
              if ReadCode(CodeOf(segment)).None? then e == UnknownOption(CodeOf(segment))
              else e == InvalidOptionValue(segment)
    ensures ReadCode(CodeOf(segment)).None? ==> Decode(lib, segment).Err?
  {
    hide DecodeArgs, ReadCode, Split;
  }

  /** The error of a list is that of its first segment that does not decode. */
  lemma {:induction false} FirstErrorIsReported<F, D>(lib: Library<F, D>, segments: seq<string>, e: ParseError)
    ensures ParseOptions(lib, segments) == Err(e)
       <==> exists i :: 0 <= i < |segments| && Decode(lib, segments[i]) == Err(e)
                        && forall j | 0 <= j < i :: Decode(lib, segments[j]).Ok?
    decreases |segments|
  {
    hide Decode, AssignAll, ResolveCrop;
    if segments != [] {
      var rest := segments[1..];
      FirstErrorIsReported(lib, rest, e);
      assert forall k | 0 <= k < |rest| :: rest[k] == segments[k + 1];
      if Decode(lib, segments[0]).Ok? {
        if ParseOptions(lib, rest) == Err(e) {
          var i :| 0 <= i < |rest| && Decode(lib, rest[i]) == Err(e)
                   && forall j | 0 <= j < i :: Decode(lib, rest[j]).Ok?;
          assert Decode(lib, segments[i + 1]) == Err(e);
          assert forall j | 0 <= j < i + 1 :: j == 0 || segments[j] == rest[j - 1];
        }
        if i :| 0 <= i < |segments| && Decode(lib, segments[i]) == Err(e)
                && forall j | 0 <= j < i :: Decode(lib, segments[j]).Ok? {
          assert Decode(lib, rest[i - 1]) == Err(e);
          assert forall j | 0 <= j < i - 1 :: rest[j] == segments[j + 1] && Decode(lib, rest[j]).Ok?;
        }
      } else if Decode(lib, segments[0]) == Err(e) {
        assert exists i :: 0 <= i < |segments| && Decode(lib, segments[i]) == Err(e)
                           && forall j | 0 <= j < i :: Decode(lib, segments[j]).Ok?;
      }
    }
  }
}
