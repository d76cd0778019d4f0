/** The two renderings of a number of seconds the frontend uses: `Utils.formatDuration`
    (frontend/js/utils.js), which zero-pads minutes and seconds after the first field, and
    `ReportsManager.formatDuration` (frontend/js/reports.js), which does not and which lets
    negative numbers through its guard. Only integral inputs are modelled. */
module DurationFormat {
  import opened Wrappers
  import opened Decimal
  import Text

  /** JavaScript's `%`: the remainder takes the sign of the dividend. */
  function JsRem(a: int, b: int): (r: int)
    requires b > 0
    ensures a >= 0 ==> r == a % b
    ensures a < 0 ==> -b < r <= 0
    ensures (a - r) % b == 0
  {
    if a >= 0 then
      RemOfNonNegative(a, b);
      a % b
    else
      RemOfNegative(a, b);
      -((-a) % b)
  }

  lemma RemOfNonNegative(a: int, b: int)
    requires a >= 0 && b > 0
    ensures (a - a % b) % b == 0
  {
    MultipleHasNoRemainder(b, a / b);
    assert a - a % b == b * (a / b);
  }

  lemma RemOfNegative(a: int, b: int)
    requires a < 0 && b > 0
    ensures -b < -((-a) % b) <= 0
    ensures (a - -((-a) % b)) % b == 0
  {
    MultipleHasNoRemainder(b, -((-a) / b));
    assert a - -((-a) % b) == b * -((-a) / b);
  }

  lemma MultipleHasNoRemainder(b: int, k: int)
    requires b > 0
    ensures (b * k) % b == 0
  {
    var q, m := (b * k) / b, (b * k) % b;
    assert b * (k - q) == m by {
      assert b * q + m == b * k;
    }
    ProductBelow(b, k - q);
    ProductBelow(b, q - k);
  }

  /** `Math.floor(s / 3600)`, `Math.floor((s % 3600) / 60)` and `s % 60`. */
  datatype Parts = Parts(hours: int, minutes: int, secs: int)

  function Decompose(s: int): (p: Parts)
    ensures s > 0 ==> p.hours * 3600 + p.minutes * 60 + p.secs == s
    ensures s > 0 ==> p.hours >= 0 && 0 <= p.minutes < 60 && 0 <= p.secs < 60
  {
    Parts(s / 3600, JsRem(s, 3600) / 60, JsRem(s, 60))
  }

  /** `n.toString().padStart(2, '0')`. */
  function Pad2(n: nat): (r: string)
    ensures AllDigits(r) && Value(r) == n
    ensures n < 100 ==> |r| == 2
    ensures n >= 10 ==> r == NatToString(n)
  {
    var s := NatToString(n);
    if |s| < 2 then ValueLeadingZero(s); "0" + s else s
  }

  /** `Utils.formatDuration`. */
  function FormatUtils(seconds: int): (r: string)
    ensures seconds <= 0 ==> r == "0s"
    ensures |r| >= 2 && r[|r| - 1] == 's'
  {
    if seconds <= 0 then "0s"
    else
      var p := Decompose(seconds);
      if p.hours > 0 then NatToString(p.hours) + "h " + Pad2(p.minutes) + "m " + Pad2(p.secs) + "s"
      else if p.minutes > 0 then NatToString(p.minutes) + "m " + Pad2(p.secs) + "s"
      else NatToString(p.secs) + "s"
  }

  /** `ReportsManager.formatDuration`: only `0` is caught by its guard. */
  function FormatReports(seconds: int): (r: string)
    ensures seconds == 0 ==> r == "0s"
    ensures |r| >= 2 && r[|r| - 1] == 's'
  {
    if seconds == 0 then "0s"
    else
      var p := Decompose(seconds);
      if p.hours > 0 then IntToString(p.hours) + "h " + IntToString(p.minutes) + "m " + IntToString(p.secs) + "s"
      else if p.minutes > 0 then IntToString(p.minutes) + "m " + IntToString(p.secs) + "s"
      else IntToString(p.secs) + "s"
  }

  // ---------------------------------------------------------------------------------------
  // Reading a rendering back

  /** A word made of digits followed by `unit`, read as a number. */
  function Quantity(w: string, unit: char): (r: Option<nat>)
    ensures r.Some? ==> |w| >= 2 && w[|w| - 1] == unit
  {
    if |w| >= 2 && w[|w| - 1] == unit && AllDigits(w[..|w| - 1]) then Some(Value(w[..|w| - 1])) else None
  }

  /** The number of seconds a rendering `Hh Mm Ss`, `Mm Ss` or `Ss` denotes (padded or not). */
  function Parse(s: string): Option<nat> {
    var ws := Text.Split(s, ' ');
    var x := Quantity(ws[|ws| - 1], 's');
    var m := if |ws| >= 2 then Quantity(ws[|ws| - 2], 'm') else Some(0);
    var h := if |ws| == 3 then Quantity(ws[0], 'h') else Some(0);
    if |ws| <= 3 && h.Some? && m.Some? && x.Some? then Some(h.value * 3600 + m.value * 60 + x.value)
    else None
  }

  // ---------------------------------------------------------------------------------------
  // Properties

  /** For a positive number the three fields add back up to it, and the minutes and seconds
      are below 60. */
  lemma DecompositionIsExact(s: int)
    requires s > 0
    ensures var p := Decompose(s);
      && p.hours * 3600 + p.minutes * 60 + p.secs == s
      && 0 <= p.minutes < 60 && 0 <= p.secs < 60 && p.hours >= 0
  {
  }

  lemma QuantityOf(digits: string, unit: char)
    requires AllDigits(digits) && |digits| >= 1
    ensures Quantity(digits + [unit], unit) == Some(Value(digits))
  {
    assert (digits + [unit])[..|digits|] == digits;
  }

  /** No digit is a space. */
  lemma DigitsHaveNoSpace(s: string)
    requires AllDigits(s)
    ensures ' ' !in s
  {
  }

  lemma WordsOfTwo(a: string, b: string)
    requires ' ' !in a && ' ' !in b
    ensures Text.Split(a + " " + b, ' ') == [a, b]
  {
    assert Text.Join([a, b], ' ') == a + " " + b;
    Text.SplitJoin([a, b], ' ');
  }

  lemma WordsOfThree(a: string, b: string, c: string)
    requires ' ' !in a && ' ' !in b && ' ' !in c
    ensures Text.Split(a + " " + b + " " + c, ' ') == [a, b, c]
  {
    assert [a, b, c][1..] == [b, c];
    assert Text.Join([b, c], ' ') == b + " " + c;
    assert Text.Join([a, b, c], ' ') == a + " " + b + " " + c;
    Text.SplitJoin([a, b, c], ' ');
  }

  /** The words of a three-field rendering. */
  lemma SplitThree(t: string, h: string, m: string, x: string)
    requires AllDigits(h) && AllDigits(m) && AllDigits(x)
    requires t == h + "h " + m + "m " + x + "s"
    ensures Text.Split(t, ' ') == [h + "h", m + "m", x + "s"]
  {
    DigitsHaveNoSpace(h);
    DigitsHaveNoSpace(m);
    DigitsHaveNoSpace(x);
    assert t == (h + "h") + " " + (m + "m") + " " + (x + "s");
    WordsOfThree(h + "h", m + "m", x + "s");
  }

  /** The words of a two-field rendering. */
  lemma SplitTwo(t: string, m: string, x: string)
    requires AllDigits(m) && AllDigits(x)
    requires t == m + "m " + x + "s"
    ensures Text.Split(t, ' ') == [m + "m", x + "s"]
  {
    DigitsHaveNoSpace(m);
    DigitsHaveNoSpace(x);
    assert t == (m + "m") + " " + (x + "s");
    WordsOfTwo(m + "m", x + "s");
  }

  /** The word of a one-field rendering. */
  lemma SplitOne(t: string, x: string)
    requires AllDigits(x)
    requires t == x + "s"
    ensures Text.Split(t, ' ') == [x + "s"]
  {
    DigitsHaveNoSpace(x);
    Text.SplitOfPiece(x + "s", ' ');
  }

  /** Reading back three fields. */
  lemma ReadThree(t: string, h: string, m: string, x: string, hv: nat, mv: nat, xv: nat)
    requires Text.Split(t, ' ') == [h + "h", m + "m", x + "s"]
    requires Quantity(h + "h", 'h') == Some(hv) && Quantity(m + "m", 'm') == Some(mv)
    requires Quantity(x + "s", 's') == Some(xv)
    ensures Parse(t) == Some(hv * 3600 + mv * 60 + xv)
  {
  }

  /** Reading back two fields. */
  lemma ReadTwo(t: string, m: string, x: string, mv: nat, xv: nat)
    requires Text.Split(t, ' ') == [m + "m", x + "s"]
    requires Quantity(m + "m", 'm') == Some(mv) && Quantity(x + "s", 's') == Some(xv)
    ensures Parse(t) == Some(mv * 60 + xv)
  {
  }

  /** Reading back one field. */
  lemma ReadOne(t: string, x: string, xv: nat)
    requires Text.Split(t, ' ') == [x + "s"]
    requires Quantity(x + "s", 's') == Some(xv)
    ensures Parse(t) == Some(xv)
  {
  }

  /** Fields that read back to the parts of a number read back to the number. */
  lemma ReadBackThree(t: string, h: string, m: string, x: string)
    requires AllDigits(h) && AllDigits(m) && AllDigits(x) && |h| >= 1 && |m| >= 1 && |x| >= 1
    requires Text.Split(t, ' ') == [h + "h", m + "m", x + "s"]
    ensures Parse(t) == Some(Value(h) * 3600 + Value(m) * 60 + Value(x))
  {
    QuantityOf(h, 'h');
    QuantityOf(m, 'm');
    QuantityOf(x, 's');
    ReadThree(t, h, m, x, Value(h), Value(m), Value(x));
  }

  /** The same without an hours field. */
  lemma ReadBackTwo(t: string, m: string, x: string)
    requires AllDigits(m) && AllDigits(x) && |m| >= 1 && |x| >= 1
    requires Text.Split(t, ' ') == [m + "m", x + "s"]
    ensures Parse(t) == Some(Value(m) * 60 + Value(x))
  {
    QuantityOf(m, 'm');
    QuantityOf(x, 's');
    ReadTwo(t, m, x, Value(m), Value(x));
  }

  /** The same with the seconds field alone. */
  lemma ReadBackOne(t: string, x: string)
    requires AllDigits(x) && |x| >= 1
    requires Text.Split(t, ' ') == [x + "s"]
    ensures Parse(t) == Some(Value(x))
  {
    QuantityOf(x, 's');
    ReadOne(t, x, Value(x));
  }

  lemma SameValue(t: string, v: nat, s: int)
    requires v == s
    requires Parse(t) == Some(v)
    ensures Parse(t) == Some(s)
  {
  }

  lemma Recompose(s: int, hours: int, minutes: int, secs: int)
    requires s > 0 && Decompose(s) == Parts(hours, minutes, secs)
    ensures hours * 3600 + minutes * 60 + secs == s
  {
    DecompositionIsExact(s);
  }

  /** `Utils.formatDuration` loses nothing on a non-negative number: reading its output back
      gives the number. */
  lemma FormatUtilsRoundTrip(s: int)
    requires s >= 0
    ensures Parse(FormatUtils(s)) == Some(s)
  {
    if s == 0 {
      SplitOne("0s", "0");
      ReadBackOne("0s", "0");
    } else {
      DecompositionIsExact(s);
      var p := Decompose(s);
      if p.hours > 0 {
        UtilsThreeFields(s);
      } else if p.minutes > 0 {
        UtilsTwoFields(s);
      } else {
        UtilsOneField(s);
      }
    }
  }

  lemma UtilsThreeFields(s: int)
    requires s > 0 && Decompose(s).hours > 0
    ensures Parse(FormatUtils(s)) == Some(s)
  {
    var t := FormatUtils(s);
    var p := Decompose(s);
    var h, m, x := NatToString(p.hours), Pad2(p.minutes), Pad2(p.secs);
    assert t == h + "h " + m + "m " + x + "s";
    SplitThree(t, h, m, x);
    Recompose(s, Value(h), Value(m), Value(x));
    ReadBackThree(t, h, m, x);
    SameValue(t, Value(h) * 3600 + Value(m) * 60 + Value(x), s);
  }

  lemma UtilsTwoFields(s: int)
    requires s > 0 && Decompose(s).hours <= 0 && Decompose(s).minutes > 0
    ensures Parse(FormatUtils(s)) == Some(s)
  {
    var t := FormatUtils(s);
    var p := Decompose(s);
    DecompositionIsExact(s);
    var m, x := NatToString(p.minutes), Pad2(p.secs);
    assert t == m + "m " + x + "s";
    SplitTwo(t, m, x);
    Recompose(s, 0, Value(m), Value(x));
    ReadBackTwo(t, m, x);
    SameValue(t, Value(m) * 60 + Value(x), s);
  }

  lemma UtilsOneField(s: int)
    requires s > 0 && Decompose(s).hours <= 0 && Decompose(s).minutes <= 0
    ensures Parse(FormatUtils(s)) == Some(s)
  {
    var t := FormatUtils(s);
    var p := Decompose(s);
    DecompositionIsExact(s);
    var x := NatToString(p.secs);
    assert t == x + "s";
    SplitOne(t, x);
    Recompose(s, 0, 0, Value(x));
    ReadBackOne(t, x);
    SameValue(t, Value(x), s);
  }

  /** `ReportsManager.formatDuration` loses nothing on a non-negative number either. */
  lemma FormatReportsRoundTrip(s: int)
    requires s >= 0
    ensures Parse(FormatReports(s)) == Some(s)
  {
    if s == 0 {
      SplitOne("0s", "0");
      ReadBackOne("0s", "0");
    } else {
      DecompositionIsExact(s);
      var p := Decompose(s);
      if p.hours > 0 {
        ReportsThreeFields(s);
      } else if p.minutes > 0 {
        ReportsTwoFields(s);
      } else {
        ReportsOneField(s);
      }
    }
  }

  lemma ReportsThreeFields(s: int)
    requires s > 0 && Decompose(s).hours > 0
    ensures Parse(FormatReports(s)) == Some(s)
  {
    var t := FormatReports(s);
    var p := Decompose(s);
    DecompositionIsExact(s);
    var h, m, x := NatToString(p.hours), NatToString(p.minutes), NatToString(p.secs);
    assert t == h + "h " + m + "m " + x + "s";
    SplitThree(t, h, m, x);
    Recompose(s, Value(h), Value(m), Value(x));
    ReadBackThree(t, h, m, x);
    SameValue(t, Value(h) * 3600 + Value(m) * 60 + Value(x), s);
  }

  lemma ReportsTwoFields(s: int)
    requires s > 0 && Decompose(s).hours <= 0 && Decompose(s).minutes > 0
    ensures Parse(FormatReports(s)) == Some(s)
  {
    var t := FormatReports(s);
    var p := Decompose(s);
    DecompositionIsExact(s);
    var m, x := NatToString(p.minutes), NatToString(p.secs);
    assert t == m + "m " + x + "s";
    SplitTwo(t, m, x);
    Recompose(s, 0, Value(m), Value(x));
    ReadBackTwo(t, m, x);
    SameValue(t, Value(m) * 60 + Value(x), s);
  }

  lemma ReportsOneField(s: int)
    requires s > 0 && Decompose(s).hours <= 0 && Decompose(s).minutes <= 0
    ensures Parse(FormatReports(s)) == Some(s)
  {
    var t := FormatReports(s);
    var p := Decompose(s);
    DecompositionIsExact(s);
    var x := NatToString(p.secs);
    assert t == x + "s";
    SplitOne(t, x);
    Recompose(s, 0, 0, Value(x));
    ReadBackOne(t, x);
    SameValue(t, Value(x), s);
  }

  /** The shape of `Utils.formatDuration`: three words from an hour up, two from a minute up,
      one below; the first word is the leading quantity unpadded, and every word after it is
      two digits and its unit. */
  lemma FormatUtilsShape(s: int)
    ensures var ws := Text.Split(FormatUtils(s), ' ');
      && (|ws| == 3 <==> s >= 3600)
      && (|ws| == 2 <==> 60 <= s < 3600)
      && (|ws| == 1 <==> s < 60)
      && (forall i :: 1 <= i < |ws| ==> |ws[i]| == 3)
      && (s >= 3600 ==> ws[0] == NatToString(s / 3600) + "h")
      && (60 <= s < 3600 ==> ws[0] == NatToString(s / 60) + "m")
      && (0 < s < 60 ==> ws[0] == NatToString(s) + "s")
  {
    if s <= 0 {
      Text.SplitOfPiece("0s", ' ');
    } else if s >= 3600 {
      ShapeThree(s);
    } else if s >= 60 {
      ShapeTwo(s);
    } else {
      ShapeOne(s);
    }
  }

  lemma ShapeThree(s: int)
    requires s >= 3600
    ensures var ws := Text.Split(FormatUtils(s), ' ');
      |ws| == 3 && |ws[1]| == 3 && |ws[2]| == 3 && ws[0] == NatToString(s / 3600) + "h"
  {
    DecompositionIsExact(s);
    var p := Decompose(s);
    assert p.hours > 0;
    var h, m, x := NatToString(p.hours), Pad2(p.minutes), Pad2(p.secs);
    assert FormatUtils(s) == h + "h " + m + "m " + x + "s";
    SplitThree(FormatUtils(s), h, m, x);
  }

  lemma ShapeTwo(s: int)
    requires 60 <= s < 3600
    ensures var ws := Text.Split(FormatUtils(s), ' ');
      |ws| == 2 && |ws[1]| == 3 && ws[0] == NatToString(s / 60) + "m"
  {
    DecompositionIsExact(s);
    var p := Decompose(s);
    assert p.hours == 0 && p.minutes == s / 60 > 0;
    var m, x := NatToString(p.minutes), Pad2(p.secs);
    assert FormatUtils(s) == m + "m " + x + "s";
    SplitTwo(FormatUtils(s), m, x);
  }

  lemma ShapeOne(s: int)
    requires 0 < s < 60
    ensures Text.Split(FormatUtils(s), ' ') == [NatToString(s) + "s"]
  {
    DecompositionIsExact(s);
    var p := Decompose(s);
    assert p.hours == 0 && p.minutes == 0 && p.secs == s;
    var x := NatToString(s);
    assert FormatUtils(s) == x + "s";
    SplitOne(FormatUtils(s), x);
  }

  /** Zero and negative numbers all render as `0s` in `Utils.formatDuration`. */
  lemma FormatUtilsNonPositive(s: int)
    ensures FormatUtils(s) == "0s" <==> s <= 0
  {
    if s > 0 {
      FormatUtilsRoundTrip(s);
      FormatUtilsRoundTrip(0);
    }
  }

  /** `ReportsManager.formatDuration` renders a negative number as the JavaScript remainder of
      its division by 60 alone: hours and minutes are dropped, so -65 and -5 both read "-5s". */
  lemma FormatReportsNegative(s: int)
    requires s < 0
    ensures FormatReports(s) == IntToString(JsRem(s, 60)) + "s"
    ensures FormatReports(-65) == FormatReports(-5) == "-5s"
  {
    assert Decompose(-65) == Parts(-1, -2, -5);
    assert Decompose(-5) == Parts(-1, -1, -5);
    assert NatToString(5) == "5";
  }

  /** The two renderings agree up to padding: both read back to the same number, and below a
      minute, where nothing is padded, they are the same string. */
  lemma RenderingsAgree(s: int)
    requires s >= 0
    ensures Parse(FormatUtils(s)) == Parse(FormatReports(s))
    ensures s < 60 ==> FormatUtils(s) == FormatReports(s)
  {
    FormatUtilsRoundTrip(s);
    FormatReportsRoundTrip(s);
    if 0 < s < 60 {
      assert Decompose(s) == Parts(0, 0, s);
    }
  }
}
