/**
 * The XAML value converters. A bound value arrives as an untyped object;
 * `Value` lists the shapes the bindings pass in. Culture-dependent text
 * formatting (object.ToString, string.Format, IFormattable.ToString) is a
 * parameter of the model.
 */
module Converters {
  import opened Wrappers
  import opened Text
  import opened Numerics
  import opened Settings

  /** A boxed value handed to a converter. */
  datatype Value =
    | Null
    | BoolValue(b: bool)
    | IntValue(n: int)
    | NumberValue(d: Double)
    | StringValue(s: string)
    | MetricValue(m: MemoryMetric)
    | ListValue(xs: seq<Double>)
    | OtherValue

  /** Convert.ToDouble of a non-null value; None where it throws. */
  function ToDouble(v: Value): (r: Option<Double>)
    ensures v.NumberValue? ==> r == Some(v.d)
    ensures v.BoolValue? ==> r == Some(Finite(if v.b then 1.0 else 0.0))
    ensures v.ListValue? || v.OtherValue? ==> r == None
  {
    match v
    case Null => Some(Finite(0.0))
    case BoolValue(b) => Some(Finite(if b then 1.0 else 0.0))
    case IntValue(n) => Some(Finite(n as real))
    case NumberValue(d) => Some(d)
    case StringValue(s) => (match ParseReal(s) case Some(x) => Some(Finite(x)) case None => None)
    case MetricValue(m) => Some(Finite(m as int as real))
    case ListValue(_) => None
    case OtherValue => None
  }

  /** Convert.ToInt32; None where it throws (NaN, infinity, out of range, unparsable text, no conversion). */
  function ToInt32(v: Value): (r: Option<int>)
    ensures r.Some? ==> InInt32(r.value)
    ensures v.Null? ==> r == Some(0)
    ensures v.NumberValue? && v.d.Finite? && InInt32(RoundHalfEven(v.d.value)) ==>
      r == Some(RoundHalfEven(v.d.value))
    ensures v.NumberValue? && !v.d.Finite? ==> r == None
  {
    match v
    case Null => Some(0)
    case BoolValue(b) => Some(if b then 1 else 0)
    case IntValue(n) => if InInt32(n) then Some(n) else None
    case NumberValue(d) =>
      if d.Finite? && InInt32(RoundHalfEven(d.value)) then Some(RoundHalfEven(d.value)) else None
    case StringValue(s) => ParseInt(s)
    case MetricValue(m) => if InInt32(m as int) then Some(m as int) else None
    case ListValue(_) => None
    case OtherValue => None
  }

  // ----- FormatConverter -----

  /** The culture-dependent formatting the converter delegates to. */
  datatype Formatting = Formatting(
    /** object.ToString() of a non-null value */
    text: Value -> string,
    /** string.Format(culture, fmt, s); None where it throws a FormatException */
    composite: (string, string) -> Option<string>,
    /** IFormattable.ToString(fmt, culture); None where it throws */
    custom: (Value, string) -> Option<string>)

  /** Numbers and enums implement IFormattable; bool, string and lists do not. */
  predicate IsFormattable(v: Value) {
    v.IntValue? || v.NumberValue? || v.MetricValue?
  }

  /** `value?.ToString() ?? ""`. */
  function TextOrEmpty(value: Value, f: Formatting): (r: string)
    ensures value.Null? ==> r == ""
    ensures !value.Null? ==> r == f.text(value)
  {
    if value.Null? then "" else f.text(value)
  }

  predicate IsComposite(fmt: string) {
    IndexOfChar(fmt, '{') >= 0 && IndexOfChar(fmt, '}') >= 0
  }

  function FormatConvert(value: Value, parameter: Value, f: Formatting): (r: string)
    // a composite pattern over an empty or blank source renders nothing
    ensures (parameter.StringValue? && IsComposite(parameter.s) && (value.Null? || IsBlank(f.text(value)))) ==>
      r == ""
    // a composite pattern over a non-blank source is string.Format of its text, when that succeeds
    ensures (parameter.StringValue? && IsComposite(parameter.s) && !value.Null? && !IsBlank(f.text(value))
             && f.composite(parameter.s, f.text(value)).Some?) ==>
      r == f.composite(parameter.s, f.text(value)).value
    // a plain format string applies to formattable values
    ensures (parameter.StringValue? && !IsComposite(parameter.s) && IsFormattable(value)
             && f.custom(value, parameter.s).Some?) ==>
      r == f.custom(value, parameter.s).value
    // without a string parameter the result is the value's text
    ensures !parameter.StringValue? ==> r == TextOrEmpty(value, f)
    // every failed formatting falls back to the value's text
    ensures || r == ""
            || r == TextOrEmpty(value, f)
            || (parameter.StringValue? && !value.Null? && f.composite(parameter.s, f.text(value)) == Some(r))
            || (parameter.StringValue? && f.custom(value, parameter.s) == Some(r))
  {
    match parameter
    case StringValue(fmt) =>
      if IsComposite(fmt) then
        if value.Null? || IsBlank(f.text(value)) then ""
        else
          match f.composite(fmt, f.text(value))
          case Some(t) => t
          case None => TextOrEmpty(value, f)
      else if IsFormattable(value) then
        match f.custom(value, fmt)
        case Some(t) => t
        case None => TextOrEmpty(value, f)
      else TextOrEmpty(value, f)
    case _ => TextOrEmpty(value, f)
  }

  /** The " × {0}" instance-count pattern never leaves a stray separator:
    * no source text means no output, whatever the culture does. */
  lemma CompositeOverBlankIsEmpty(value: Value, fmt: string, f: Formatting)
    requires IsComposite(fmt)
    requires value.Null? || Trim(f.text(value)) == []
    ensures FormatConvert(value, StringValue(fmt), f) == ""
  {
    if !value.Null? {
      TrimOfBlank(f.text(value));
    }
  }

  // ----- BoolToYesNoConverter -----

  function BoolToYesNo(value: Value): (r: string)
    ensures value == BoolValue(true) <==> r == "Yes"
    ensures value == BoolValue(false) <==> r == "No"
    ensures !value.BoolValue? <==> r == ""
  {
    match value
    case BoolValue(b) => if b then "Yes" else "No"
    case _ => ""
  }

  // ----- IntGreaterThanConverter / IntLessThanOrEqualConverter -----

  /** A missing (null) parameter is threshold 0, which is what Convert.ToInt32(null) gives as well. */
  function IntGreaterThan(value: Value, parameter: Value): (r: bool)
    ensures r <==> (ToInt32(value).Some? && ToInt32(parameter).Some?
                    && ToInt32(value).value > ToInt32(parameter).value)
  {
    match (ToInt32(value), ToInt32(parameter))
    case (Some(v), Some(t)) => v > t
    case _ => false
  }

  function IntLessThanOrEqual(value: Value, parameter: Value): (r: bool)
    ensures r <==> (ToInt32(value).Some? && ToInt32(parameter).Some?
                    && ToInt32(value).value <= ToInt32(parameter).value)
  {
    match (ToInt32(value), ToInt32(parameter))
    case (Some(v), Some(t)) => v <= t
    case _ => false
  }

  /** For convertible inputs exactly one of the two converters answers true;
    * when either conversion throws, both answer false. */
  lemma ThresholdsComplement(value: Value, parameter: Value)
    ensures ToInt32(value).Some? && ToInt32(parameter).Some? ==>
      IntGreaterThan(value, parameter) != IntLessThanOrEqual(value, parameter)
    ensures ToInt32(value).None? || ToInt32(parameter).None? ==>
      !IntGreaterThan(value, parameter) && !IntLessThanOrEqual(value, parameter)
  {
  }

  /** A missing parameter compares against 0: "any instances beyond none". */
  lemma NullThresholdIsZero(n: int)
    requires InInt32(n)
    ensures IntGreaterThan(IntValue(n), Null) <==> n > 0
    ensures IntLessThanOrEqual(IntValue(n), Null) <==> n <= 0
  {
  }

  // ----- StripParenthesesConverter -----

  /** The text before the first '(' with trailing space trimmed; a string with
    * no '(' or with '(' first is returned as is. */
  function StripParentheses(s: string): (r: string)
    ensures IndexOfChar(s, '(') <= 0 ==> r == s
    ensures IndexOfChar(s, '(') > 0 ==>
      && r == TrimEnd(s[..IndexOfChar(s, '(')])
      && '(' !in r
      && StartsWith(s, r)
  {
    var idx := IndexOfChar(s, '(');
    if idx > 0 then
      var r := TrimEnd(s[..idx]);
      assert forall k :: 0 <= k < |r| ==> r[k] == s[k] && s[k] != '(';
      r
    else s
  }

  function StripParenthesesConvert(value: Value, f: Formatting): (r: string)
    ensures |r| <= |TextOrEmpty(value, f)|
  {
    StripParentheses(TextOrEmpty(value, f))
  }

  /** Stripping twice is stripping once. */
  lemma StripParenthesesIdempotent(s: string)
    ensures StripParentheses(StripParentheses(s)) == StripParentheses(s)
  {
    var r := StripParentheses(s);
    if IndexOfChar(s, '(') > 0 {
      assert IndexOfChar(r, '(') == -1;
    }
  }

  /** A drive label as the system shows it loses its letter. */
  lemma StripParenthesesDriveName()
    ensures StripParentheses("Disk 0 (C:)") == "Disk 0"
  {
    var s := "Disk 0 (C:)";
    DriveNameParen();
    assert s[..7] == "Disk 0 ";
    DriveNameTrim();
  }

  lemma DriveNameParen()
    ensures IndexOfChar("Disk 0 (C:)", '(') == 7
  {
    var s := "Disk 0 (C:)";
    assert s[7] == '(';
    assert forall i :: 0 <= i < 7 ==> s[i] != '(';
  }

  lemma DriveNameTrim()
    ensures TrimEnd("Disk 0 ") == "Disk 0"
  {
    assert "Disk 0 "[..6] == "Disk 0";
  }

  // ----- PercentToScaleConverter -----

  /** The double read from the bound value; None where the conversion throws. */
  function ReadDouble(value: Value): (r: Option<Double>)
    ensures value.Null? ==> r == Some(Finite(0.0))
    ensures !value.Null? ==> r == ToDouble(value)
  {
    if value.Null? then Some(Finite(0.0)) else ToDouble(value)
  }

  /** A percentage to a [0,1] scale factor; NaN, infinities, negatives and
    * conversion failures give 0, values above 100 give 1. */
  function PercentToScale(value: Value): (r: real)
    ensures 0.0 <= r <= 1.0
    ensures value.Null? ==> r == 0.0
    ensures ReadDouble(value).None? ==> r == 0.0
    ensures ReadDouble(value).Some? && !ReadDouble(value).value.Finite? ==> r == 0.0
    ensures value.NumberValue? && value.d.Finite? ==>
      r == Clamp(value.d.value, 0.0, 100.0) / 100.0
  {
    match ReadDouble(value)
    case None => 0.0
    case Some(d) => Clamp(d.OrZero(), 0.0, 100.0) / 100.0
  }

  /** The scale factor back to a percentage (IEEE specials pass through). */
  function ScaleToPercent(value: Value): (r: Double)
    ensures ReadDouble(value).None? ==> r == Finite(0.0)
    ensures ReadDouble(value).Some? && ReadDouble(value).value.Finite? ==>
      r == Finite(ReadDouble(value).value.value * 100.0)
    ensures ReadDouble(value).Some? && !ReadDouble(value).value.Finite? ==> r == ReadDouble(value).value
  {
    match ReadDouble(value)
    case None => Finite(0.0)
    case Some(d) => if d.Finite? then Finite(d.value * 100.0) else d
  }

  /** ConvertBack undoes Convert on every percentage in range. */
  lemma PercentScaleRoundTrip(v: real)
    requires 0.0 <= v <= 100.0
    ensures ScaleToPercent(NumberValue(Finite(PercentToScale(NumberValue(Finite(v)))))) == Finite(v)
  {
  }

  // ----- BoolToOpacityConverter -----

  /** The converter's two settable properties. */
  datatype Opacity = Opacity(trueValue: real, falseValue: real)

  const DefaultOpacity := Opacity(0.55, 0.0)

  /** A parameter parsable as a double replaces the true value and forces 0
    * for "not true"; otherwise the two properties apply. */
  function OpacityConvert(o: Opacity, value: Value, parameter: Value): (r: real)
    ensures parameter.StringValue? && ParseReal(parameter.s).Some? ==>
      r == (if value == BoolValue(true) then ParseReal(parameter.s).value else 0.0)
    ensures !(parameter.StringValue? && ParseReal(parameter.s).Some?) ==>
      r == (if value == BoolValue(true) then o.trueValue else o.falseValue)
  {
    var isTrue := value == BoolValue(true);
    match parameter
    case StringValue(s) =>
      (match ParseReal(s)
       case Some(parsed) => if isTrue then parsed else 0.0
       case None => if isTrue then o.trueValue else o.falseValue)
    case _ => if isTrue then o.trueValue else o.falseValue
  }

  /** True exactly for a double above the midpoint of the two opacities. */
  function OpacityConvertBack(o: Opacity, value: Value): (r: bool)
    ensures r <==> (value.NumberValue? && (value.d.PosInf? ||
                    (value.d.Finite? && value.d.value > (o.trueValue + o.falseValue) / 2.0)))
  {
    match value
    case NumberValue(d) =>
      (match d
       case Finite(x) => x > (o.trueValue + o.falseValue) / 2.0
       case PosInf => true
       case _ => false)
    case _ => false
  }

  /** Whenever the true opacity is the larger one (as with the defaults),
    * converting back recovers "was the value true". */
  lemma OpacityRoundTrip(o: Opacity, value: Value, parameter: Value)
    requires o.trueValue > o.falseValue
    requires !(parameter.StringValue? && ParseReal(parameter.s).Some?)
    ensures OpacityConvertBack(o, NumberValue(Finite(OpacityConvert(o, value, parameter)))) <==>
      value == BoolValue(true)
  {
  }

  lemma DefaultOpacityRoundTrip(b: bool)
    ensures OpacityConvertBack(DefaultOpacity, NumberValue(Finite(OpacityConvert(DefaultOpacity, BoolValue(b), Null)))) == b
  {
    OpacityRoundTrip(DefaultOpacity, BoolValue(b), Null);
  }

  // ----- BoolToChevronConverter -----

  const ChevronDown := "\U{E70D}"
  const ChevronRight := "\U{E76C}"

  function BoolToChevron(value: Value): (r: string)
    ensures r == ChevronDown || r == ChevronRight
    ensures r == ChevronDown <==> value == BoolValue(true)
  {
    if value == BoolValue(true) then ChevronDown else ChevronRight
  }

  // ----- MemoryMetricToStringConverter -----

  const WorkingSetLabel := "Working set (RAM in use now)"
  const PrivateLabel := "Private (RAM reserved just for the app)"

  function MemoryMetricToString(value: Value): (r: string)
    ensures value == MetricValue(WorkingSet) <==> r == WorkingSetLabel
    ensures value == MetricValue(Private) <==> r == PrivateLabel
    ensures r == "" <==> !(value == MetricValue(WorkingSet) || value == MetricValue(Private))
  {
    match value
    case MetricValue(m) =>
      if m == WorkingSet then WorkingSetLabel
      else if m == Private then PrivateLabel
      else ""
    case _ => ""
  }

  // ----- CpuHistoryToPointsConverter -----

  datatype Point = Point(x: real, y: real)

  const ChartPadding := 10.0
  const ChartWidth := 580.0   // 600 less the padding on both sides
  const ChartHeight := 280.0  // 300 less the padding on both sides

  /** The point drawn for sample i of n: evenly spaced x, inverted y. */
  function SamplePoint(i: nat, n: nat, sample: Double): (p: Point)
    requires n >= 2
  {
    var v := if sample.Finite? then Clamp(sample.value, 0.0, 100.0) else 0.0;
    Point(i as real * (ChartWidth / (n - 1) as real) + ChartPadding,
          ChartHeight - v / 100.0 * ChartHeight + ChartPadding)
  }

  /** Every point lies inside the padded chart: 0% on the bottom edge, 100% on the top one. */
  lemma SamplePointBounds(i: nat, n: nat, sample: Double)
    requires n >= 2 && i < n
    ensures 10.0 <= SamplePoint(i, n, sample).y <= 290.0
    ensures 10.0 <= SamplePoint(i, n, sample).x <= 590.0
    ensures i == 0 ==> SamplePoint(i, n, sample).x == 10.0
    ensures i == n - 1 ==> SamplePoint(i, n, sample).x == 590.0
    ensures !sample.Finite? || sample.value <= 0.0 ==> SamplePoint(i, n, sample).y == 290.0
    ensures sample.Finite? && sample.value >= 100.0 ==> SamplePoint(i, n, sample).y == 10.0
  {
    var step := ChartWidth / (n - 1) as real;
    assert i as real * step <= (n - 1) as real * step;
  }

  /** Later samples are drawn strictly further right. */
  lemma SamplePointIncreasing(i: nat, j: nat, n: nat, a: Double, b: Double)
    requires n >= 2 && i < j < n
    ensures SamplePoint(i, n, a).x < SamplePoint(j, n, b).x
  {
    var step := ChartWidth / (n - 1) as real;
    assert step > 0.0;
    assert i as real * step < j as real * step;
  }

  /** The converter: no points for a non-list or fewer than two samples,
    * otherwise exactly one point per sample. */
  method CpuHistoryToPoints(value: Value) returns (points: seq<Point>)
    ensures !value.ListValue? || |value.xs| < 2 ==> points == []
    ensures value.ListValue? && |value.xs| >= 2 ==>
      && |points| == |value.xs|
      && forall i :: 0 <= i < |points| ==> points[i] == SamplePoint(i, |value.xs|, value.xs[i])
  {
    if !value.ListValue? || |value.xs| == 0 {
      return [];
    }
    var history := value.xs;
    if |history| < 2 {
      return [];
    }
    var stepX := ChartWidth / (|history| - 1) as real;
    points := [];
    var i := 0;
    while i < |history|
      invariant 0 <= i <= |history|
      invariant |points| == i
      invariant forall k :: 0 <= k < i ==> points[k] == SamplePoint(k, |history|, history[k])
    {
      var v := history[i];
      var clamped := if v.Finite? then Clamp(v.value, 0.0, 100.0) else 0.0;
      var x := i as real * stepX + ChartPadding;
      var y := ChartHeight - (clamped / 100.0 * ChartHeight) + ChartPadding;
      points := points + [Point(x, y)];
      i := i + 1;
    }
  }

  /** Every point of a converted history lies in the chart, left to right. */
  lemma HistoryPointsOrdered(xs: seq<Double>, points: seq<Point>)
    requires |xs| >= 2 && |points| == |xs|
    requires forall i :: 0 <= i < |points| ==> points[i] == SamplePoint(i, |xs|, xs[i])
    ensures points[0].x == 10.0 && points[|points| - 1].x == 590.0
    ensures forall i :: 0 <= i < |points| ==> 10.0 <= points[i].y <= 290.0
    ensures forall i, j :: 0 <= i < j < |points| ==> points[i].x < points[j].x
  {
    SamplePointBounds(0, |xs|, xs[0]);
    SamplePointBounds(|xs| - 1, |xs|, xs[|xs| - 1]);
    forall i | 0 <= i < |points| ensures 10.0 <= points[i].y <= 290.0 {
      SamplePointBounds(i, |xs|, xs[i]);
    }
    forall i, j | 0 <= i < j < |points| ensures points[i].x < points[j].x {
      SamplePointIncreasing(i, j, |xs|, xs[i], xs[j]);
    }
  }
}
