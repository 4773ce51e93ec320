/** The text helpers of the render pipeline: ordinal words, fixed-width
    numbers, the per-pointer diagnostic line and the marker palette. */
module Format {

  import opened Optional
  import opened Decimal
  import opened Tracker

  /** "1st", "2nd", "3rd", then decimal(ordinal + 1) + "th" for every other
      ordinal (so ordinal 20 is written "21th"). */
  function OrdinalStr(ordinal: nat): string {
    match ordinal
    case 0 => "1st"
    case 1 => "2nd"
    case 2 => "3rd"
    case _ => NatToString(ordinal + 1) + "th"
  }

  /** The ordinal word reads back as ordinal + 1 and ends in an English
      ordinal suffix; its number is never followed by another digit. */
  lemma OrdinalStrNumber(ordinal: nat)
    ensures |OrdinalStr(ordinal)| >= 3
    ensures OrdinalStr(ordinal)[|OrdinalStr(ordinal)| - 2..] in ["st", "nd", "rd", "th"]
    ensures OrdinalStr(ordinal) == NatToString(ordinal + 1) + OrdinalStr(ordinal)[|NatToString(ordinal + 1)|..]
    ensures !IsDigit(OrdinalStr(ordinal)[|NatToString(ordinal + 1)|])
    ensures LeadingNumber(OrdinalStr(ordinal)) == ordinal + 1
  {
    var d := NatToString(ordinal + 1);
    var t := OrdinalSuffix(ordinal);
    var s := OrdinalStr(ordinal);
    OrdinalSplit(ordinal);
    assert s[|d|..] == t && s[|s| - 2..] == t;
    LeadingNumberOfNumeral(ordinal + 1, t);
  }

  function OrdinalSuffix(ordinal: nat): string {
    match ordinal
    case 0 => "st"
    case 1 => "nd"
    case 2 => "rd"
    case _ => "th"
  }

  lemma OrdinalSplit(ordinal: nat)
    ensures OrdinalStr(ordinal) == NatToString(ordinal + 1) + OrdinalSuffix(ordinal)
  {
    if ordinal == 0 {
      assert NatToString(1) == "1";
    } else if ordinal == 1 {
      assert NatToString(2) == "2";
    } else if ordinal == 2 {
      assert NatToString(3) == "3";
    }
  }

  /** Different ordinals never share a label. */
  lemma OrdinalStrInjective(a: nat, b: nat)
    requires OrdinalStr(a) == OrdinalStr(b)
    ensures a == b
  {
    OrdinalStrNumber(a);
    OrdinalStrNumber(b);
  }

  /** String.prototype.padStart(width) with the default space filler. */
  function PadStart(s: string, width: nat): (r: string)
    ensures |r| == if |s| < width then width else |s|
  {
    if |s| < width then Repeat(' ', width - |s|) + s else s
  }

  /** The padded text ends with the original text and everything before it
      is a space. */
  lemma PadStartShape(s: string, width: nat)
    ensures var r := PadStart(s, width);
            && r[|r| - |s|..] == s
            && forall i :: 0 <= i < |r| - |s| ==> r[i] == ' '
  {
  }

  /** The text `numberToPadedFixed` returns: toFixed(precision), or " N/A"
      for an undefined number, right-aligned in width + precision + 1 columns. */
  function PaddedFixed(number: Option<real>, width: nat, precision: nat): string {
    PadStart(if number.None? then " N/A" else ToFixed(number.value, precision), width + precision + 1)
  }

  /** numberToPadedFixed: an undefined number is " N/A" padded at once;
      otherwise the toFixed text is padded by the loop below. */
  method NumberToPaddedFixed(number: Option<real>, width: nat, precision: nat) returns (s: string)
    ensures s == PaddedFixed(number, width, precision)
  {
    if number.None? {
      return PadStart(" N/A", width + precision + 1);
    }
    s := PrependSpaces(ToFixed(number.value, precision), width + precision + 1);
  }

  /** The padding loop of numberToPadedFixed: prepends one space at a time
      until the text is `target` characters long; a longer text is left
      alone. */
  method PrependSpaces(text: string, target: nat) returns (s: string)
    ensures s == PadStart(text, target)
  {
    s := text;
    while |s| < target
      invariant |text| <= |s| <= if |text| < target then target else |text|
      invariant s == Repeat(' ', |s| - |text|) + text
      decreases target - |s|
    {
      PrependSpace(|s| - |text|, text);
      s := " " + s;
    }
    PadStartIs(text, target, s);
  }

  lemma PrependSpace(k: nat, text: string)
    ensures " " + (Repeat(' ', k) + text) == Repeat(' ', k + 1) + text
  {
  }

  lemma PadStartIs(text: string, width: nat, s: string)
    requires |text| <= |s| == (if |text| < width then width else |text|)
    requires s == Repeat(' ', |s| - |text|) + text
    ensures s == PadStart(text, width)
  {
  }

  /** The worked example: 3.5 in a 7.2 field is ten characters, and an
      undefined value is a right-aligned N/A. */
  lemma PaddedFixedExamples()
    ensures PaddedFixed(Some(3.5), 7, 2) == "      3.50"
    ensures PaddedFixed(None, 7, 2) == "       N/A"
    ensures PaddedFixed(None, 3, 0) == " N/A"
  {
    assert Pow10(2) == 100;
    assert Scaled(3.5, 2) == 350.0;
    assert RoundHalfUp(350.0) == 350;
    assert NatToString(350) == "350" by {
      assert NatToString(3) == "3";
      assert NatToString(35) == "35";
    }
    assert FixedDigits(350, 2) == "350";
    assert ToFixed(3.5, 2) == "3.50";
  }

  /** A coordinate within (-100000, 1000000) always fills exactly the
      ten-column field, which keeps the diagnostic lines aligned. */
  lemma CoordinateFieldWidth(x: real)
    requires -100000.0 < x < 1000000.0
    ensures |PaddedFixed(Some(x), 7, 2)| == 10
  {
    var n := RoundHalfUp(Scaled(x, 2));
    assert Pow10(2) == 100;
    var bound: nat := if x < 0.0 then 8 else 9;
    assert Pow10(8) == 100000000 by {
      assert Pow10(4) == 10000;
    }
    assert Pow10(9) == 10 * Pow10(8);
    assert n < Pow10(bound);
    NatToStringLength(n, bound);
  }

  /** The diagnostic line for one pointer: ordinal word, X and Y in ten
      columns each, the radii when asked for, and the pointer type when asked
      for and non-empty. */
  function FormatTouch(info: PointerInfo, ordinal: nat, showRadius: bool, showPointerType: bool): string {
    OrdinalStr(ordinal) + (PositionText(info) + RadiusText(info, showRadius) + KindText(info, showPointerType))
  }

  function PositionText(info: PointerInfo): string {
    " X:" + PaddedFixed(Some(info.pageX), 7, 2) + " Y:" + PaddedFixed(Some(info.pageY), 7, 2)
  }

  function RadiusText(info: PointerInfo, showRadius: bool): string {
    if showRadius then " rX:" + RadiusField(info.radiusX) + (" rY:" + RadiusField(info.radiusY)) else ""
  }

  /** A radius has one decimal; an undefined one is printed with precision
      0, i.e. as " N/A" in four columns. */
  function RadiusField(radius: Option<real>): string {
    if radius.Some? then PaddedFixed(radius, 3, 1) else PaddedFixed(None, 3, 0)
  }

  function KindText(info: PointerInfo, showPointerType: bool): string {
    if showPointerType && info.pointerType != "" then " Type:" + info.pointerType else ""
  }

  /** Reading the number at the start of a diagnostic line gives back the
      1-based ordinal of its pointer. */
  lemma FormatTouchNumber(info: PointerInfo, ordinal: nat, showRadius: bool, showPointerType: bool)
    ensures LeadingNumber(FormatTouch(info, ordinal, showRadius, showPointerType)) == ordinal + 1
  {
    OrdinalLeads(ordinal, PositionText(info) + RadiusText(info, showRadius) + KindText(info, showPointerType));
  }

  /** Whatever follows the ordinal word, the number read at the start is
      ordinal + 1. */
  lemma OrdinalLeads(ordinal: nat, rest: string)
    ensures LeadingNumber(OrdinalStr(ordinal) + rest) == ordinal + 1
  {
    var o := OrdinalStr(ordinal);
    var d := NatToString(ordinal + 1);
    OrdinalStrNumber(ordinal);
    assert o + rest == d + (o[|d|..] + rest);
    LeadingNumberOfNumeral(ordinal + 1, o[|d|..] + rest);
  }

  /** Column layout of a diagnostic line whose coordinates fit the field:
      the ordinal word comes first and the X and Y labels sit at fixed
      offsets after it. */
  lemma FormatTouchColumns(info: PointerInfo, ordinal: nat, showRadius: bool, showPointerType: bool)
    requires -100000.0 < info.pageX < 1000000.0 && -100000.0 < info.pageY < 1000000.0
    ensures var line := FormatTouch(info, ordinal, showRadius, showPointerType);
            var n := |OrdinalStr(ordinal)|;
            && n + 26 <= |line|
            && line[..n] == OrdinalStr(ordinal)
            && line[n..n + 3] == " X:"
            && line[n + 13..n + 16] == " Y:"
  {
    PositionLayout(info, OrdinalStr(ordinal), RadiusText(info, showRadius), KindText(info, showPointerType));
  }

  /** The end of a diagnostic line whose coordinates fit the field: the
      radius part follows the Y column only with showRadius, and the type
      part, present only when shown and non-empty, is always last. */
  lemma FormatTouchTail(info: PointerInfo, ordinal: nat, showRadius: bool, showPointerType: bool)
    requires -100000.0 < info.pageX < 1000000.0 && -100000.0 < info.pageY < 1000000.0
    ensures var line := FormatTouch(info, ordinal, showRadius, showPointerType);
            var n := |OrdinalStr(ordinal)|;
            var kind := KindText(info, showPointerType);
            && line[|line| - |kind|..] == kind
            && (showRadius ==> line[n + 26..n + 30] == " rX:")
            && (!showRadius ==> |line| == n + 26 + |kind|)
  {
    PositionLayout(info, OrdinalStr(ordinal), RadiusText(info, showRadius), KindText(info, showPointerType));
    RadiusTextShape(info, showRadius);
  }

  /** The line layout with the coordinate fields of `info` in place. */
  lemma PositionLayout(info: PointerInfo, o: string, r: string, k: string)
    requires -100000.0 < info.pageX < 1000000.0 && -100000.0 < info.pageY < 1000000.0
    ensures var line := o + (PositionText(info) + r + k);
            var n := |o|;
            && |line| == n + 26 + |r| + |k|
            && line[..n] == o
            && line[n..n + 3] == " X:"
            && line[n + 13..n + 16] == " Y:"
            && line[|line| - |k|..] == k
            && (|r| >= 4 ==> line[n + 26..n + 30] == r[..4])
  {
    CoordinateFieldWidth(info.pageX);
    CoordinateFieldWidth(info.pageY);
    LineLayout(o, PaddedFixed(Some(info.pageX), 7, 2), PaddedFixed(Some(info.pageY), 7, 2), r, k);
  }

  lemma RadiusTextShape(info: PointerInfo, showRadius: bool)
    ensures var r := RadiusText(info, showRadius);
            && (showRadius ==> |r| >= 4 && r[..4] == " rX:")
            && (!showRadius ==> r == "")
  {
    if showRadius {
      RadiusPrefix(" rX:", RadiusField(info.radiusX), " rY:" + RadiusField(info.radiusY));
    }
  }

  lemma RadiusPrefix(a: string, b: string, c: string)
    ensures |a| <= |a + b + c| && (a + b + c)[..|a|] == a
  {
  }

  lemma LineLayout(o: string, fx: string, fy: string, r: string, k: string)
    requires |fx| == 10 && |fy| == 10
    ensures var line := o + ((" X:" + fx + " Y:" + fy) + r + k);
            var n := |o|;
            && |line| == n + 26 + |r| + |k|
            && line[..n] == o
            && line[n..n + 3] == " X:"
            && line[n + 13..n + 16] == " Y:"
            && line[|line| - |k|..] == k
            && (|r| >= 4 ==> line[n + 26..n + 30] == r[..4])
  {
    var line := o + ((" X:" + fx + " Y:" + fy) + r + k);
    var n := |o|;
    assert line[n..n + 3] == " X:" by {
      assert forall i :: 0 <= i < 3 ==> line[n + i] == " X:"[i];
    }
    assert line[n + 13..n + 16] == " Y:" by {
      assert forall i :: 0 <= i < 3 ==> line[n + 13 + i] == " Y:"[i];
    }
    if |r| >= 4 {
      assert forall i :: 0 <= i < 4 ==> line[n + 26 + i] == r[i];
    }
  }

  const COLORS: seq<string> := ["red", "lime", "orange", "aqua", "fuchsia", "yellow", "purple", "white"]

  /** The marker colour of the i-th pointer: the palette, cyclically. */
  function TouchColor(i: nat): (c: string)
    ensures c in COLORS
  {
    COLORS[i % |COLORS|]
  }

  /** Two pointers share a colour exactly when their ordinals agree modulo
      the palette size, so any eight consecutive pointers have distinct colours. */
  lemma TouchColorCycle(i: nat, j: nat)
    ensures TouchColor(i) == TouchColor(j) <==> i % 8 == j % 8
  {
    assert forall a, b :: 0 <= a < b < |COLORS| ==> COLORS[a] != COLORS[b];
  }
}
