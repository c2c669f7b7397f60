/**
 * evaluateUnixTimeStamp: turns a relative phrase such as "2 years 3 months"
 * into an instant, "now" minus the stated duration. The clock is injected as
 * `now` (an integer number of seconds) and the RFC 3339 rendering is left out.
 *
 * The phrase is split on single spaces and read as (magnitude, unit) pairs.
 * A recognised unit parses its magnitude and adds magnitude * weight seconds;
 * "second"/"seconds" adds the value held from the last parse instead of its
 * own magnitude; every other unit, including the singular "hour", adds
 * nothing. The error returned is the one of the last parse, and the instant
 * is returned together with it.
 */
module RelativeTime {

  import opened Wrappers
  import Strings
  import Strconv

  const FewSecondsMarker: string := "few seconds ago"

  /** Seconds per unit token; "houbyter" stands where "hour" was meant. */
  function UnitSeconds(unit: string): Option<int>
  {
    if unit == "year" || unit == "years" then Some(31536000)
    else if unit == "month" || unit == "months" then Some(2592000)
    else if unit == "week" || unit == "weeks" then Some(604800)
    else if unit == "day" || unit == "days" then Some(86400)
    else if unit == "houbyter" || unit == "hours" then Some(3600)
    else if unit == "minute" || unit == "minutes" then Some(60)
    else None
  }

  predicate IsSecondUnit(unit: string)
  {
    unit == "second" || unit == "seconds"
  }

  /** The loop's variables: the total `seconds`, the last parsed `second` and `err`. */
  datatype Accumulator = Accumulator(seconds: int, second: int, err: Option<Strconv.NumError>)

  const Start: Accumulator := Accumulator(0, 0, None)

  /** One pass of the loop body over the pair (duration, unit). */
  function Step(acc: Accumulator, duration: string, unit: string): Accumulator
  {
    match UnitSeconds(unit)
    case Some(weight) =>
      var parsed := Strconv.ParseInt(duration);
      Accumulator(acc.seconds + parsed.value * weight, parsed.value, parsed.err)
    case None =>
      if IsSecondUnit(unit) then acc.(seconds := acc.seconds + acc.second) else acc
  }

  /** The loop over the words two at a time; an unpaired last word is not read. */
  function Scan(words: seq<string>, acc: Accumulator): Accumulator
    decreases |words|
  {
    if |words| < 2 then acc else Scan(words[2..], Step(acc, words[0], words[1]))
  }

  /** Reading one pair is one step. */
  lemma ScanPair(acc: Accumulator, duration: string, unit: string)
    ensures Scan([duration, unit], acc) == Step(acc, duration, unit)
  {
    assert [duration, unit][2..] == [];
  }

  lemma SecondUnitsUnweighted(unit: string)
    requires IsSecondUnit(unit)
    ensures UnitSeconds(unit) == None
  {
  }

  /** What evaluateUnixTimeStamp returns: an instant and the error of the last parse. */
  datatype Stamp = Stamp(instant: int, err: Option<Strconv.NumError>)

  /** The function evaluateUnixTimeStamp computes, for a given `now`. */
  function Evaluate(phrase: string, now: int): Stamp
  {
    if Strings.Contains(phrase, FewSecondsMarker) then Stamp(now, None)
    else
      var acc := Scan(Strings.Split(phrase), Start);
      Stamp(now - acc.seconds, acc.err)
  }

  /** evaluateUnixTimeStamp itself, with its loop stepping over the words by two. */
  method EvaluateUnixTimeStamp(timeString: string, now: int) returns (instant: int, err: Option<Strconv.NumError>)
    ensures Strings.Contains(timeString, FewSecondsMarker) ==> instant == now && err == None
    ensures !Strings.Contains(timeString, FewSecondsMarker) ==>
      var acc := Scan(Strings.Split(timeString), Start);
      instant == now - acc.seconds && err == acc.err
    ensures Stamp(instant, err) == Evaluate(timeString, now)
  {
    if Strings.Contains(timeString, FewSecondsMarker) {
      return now, None;
    }
    var seconds := 0;
    var words := Strings.Split(timeString);
    var second := 0;
    err := None;
    var i := 0;
    while i < |words| - 1
      invariant 0 <= i <= |words|
      invariant i % 2 == 0
      invariant Scan(words[i..], Accumulator(seconds, second, err)) == Scan(words, Start)
      decreases |words| - i
    {
      var duration, unit := words[i], words[i + 1];
      ghost var before := Accumulator(seconds, second, err);
      assert words[i..][2..] == words[i + 2..];
      match UnitSeconds(unit) {
        case Some(weight) =>
          var parsed := Strconv.ParseInt(duration);
          second, err := parsed.value, parsed.err;
          seconds := seconds + second * weight;
        case None =>
          if IsSecondUnit(unit) {
            seconds := seconds + second;
          }
      }
      assert Accumulator(seconds, second, err) == Step(before, duration, unit);
      i := i + 2;
    }
    instant := now - seconds;
  }

  /** A phrase that mentions "few seconds ago" anywhere evaluates to `now` without error. */
  lemma FewSecondsAgoIsNow(phrase: string, now: int)
    requires Strings.Contains(phrase, FewSecondsMarker)
    ensures Evaluate(phrase, now) == Stamp(now, None)
  {
  }

  /** Reading an even-length prefix of pairs first and then the rest is reading the whole. */
  lemma {:induction false} ScanAppend(front: seq<string>, back: seq<string>, acc: Accumulator)
    requires |front| % 2 == 0
    ensures Scan(front + back, acc) == Scan(back, Scan(front, acc))
    decreases |front|
  {
    if |front| == 0 {
      assert front + back == back;
    } else {
      assert (front + back)[2..] == front[2..] + back;
      ScanAppend(front[2..], back, Step(acc, front[0], front[1]));
    }
  }

  /** A word left without a partner at the end is never read. */
  lemma {:induction false} TrailingWordIgnored(pairs: seq<string>, word: string, acc: Accumulator)
    requires |pairs| % 2 == 0
    ensures Scan(pairs + [word], acc) == Scan(pairs, acc)
  {
    ScanAppend(pairs, [word], acc);
  }

  /**
   * A recognised pair parses its magnitude, adds magnitude * weight to the
   * total, keeps the magnitude for later "seconds" pairs and replaces the
   * error by the outcome of this parse, clearing any earlier failure.
   */
  lemma {:induction false} RecognisedPairAddsWeight(pairs: seq<string>, duration: string, unit: string, acc: Accumulator)
    requires |pairs| % 2 == 0
    requires UnitSeconds(unit).Some?
    ensures
      var before := Scan(pairs, acc);
      var parsed := Strconv.ParseInt(duration);
      Scan(pairs + [duration, unit], acc)
        == Accumulator(before.seconds + parsed.value * UnitSeconds(unit).value, parsed.value, parsed.err)
  {
    ScanAppend(pairs, [duration, unit], acc);
    ScanPair(Scan(pairs, acc), duration, unit);
  }

  /**
   * A "second"/"seconds" pair adds the value kept from the last parse and
   * never reads its own magnitude: whatever stands there, the rest of the
   * phrase evaluates alike.
   */
  lemma {:induction false} SecondsPairAddsLastParse(pairs: seq<string>, duration: string, other: string, unit: string, rest: seq<string>, acc: Accumulator)
    requires |pairs| % 2 == 0
    requires IsSecondUnit(unit)
    ensures
      var before := Scan(pairs, acc);
      Scan(pairs + [duration, unit], acc) == before.(seconds := before.seconds + before.second)
    ensures Scan(pairs + [duration, unit] + rest, acc) == Scan(pairs + [other, unit] + rest, acc)
  {
    var before := Scan(pairs, acc);
    SecondUnitsUnweighted(unit);
    ScanAppend(pairs, [duration, unit], acc);
    ScanPair(before, duration, unit);
    ScanAppend(pairs, [other, unit], acc);
    ScanPair(before, other, unit);
    ScanAppend(pairs + [duration, unit], rest, acc);
    ScanAppend(pairs + [other, unit], rest, acc);
  }

  /** A pair whose unit is not recognised (the singular "hour" among them) changes nothing. */
  lemma {:induction false} UnrecognisedPairIgnored(pairs: seq<string>, duration: string, unit: string, rest: seq<string>, acc: Accumulator)
    requires |pairs| % 2 == 0
    requires UnitSeconds(unit).None? && !IsSecondUnit(unit)
    ensures Scan(pairs + [duration, unit] + rest, acc) == Scan(pairs + rest, acc)
  {
    ScanAppend(pairs, [duration, unit], acc);
    ScanPair(Scan(pairs, acc), duration, unit);
    ScanAppend(pairs + [duration, unit], rest, acc);
    ScanAppend(pairs, rest, acc);
  }

  /** `hi` reads the same units as `lo` and magnitudes that parse to values at least as large. */
  predicate Dominates(lo: seq<string>, hi: seq<string>)
  {
    && |lo| == |hi|
    && (forall k :: 0 <= k < |lo| && k % 2 == 1 ==> lo[k] == hi[k])
    && (forall k :: 0 <= k < |lo| && k % 2 == 0 ==> Strconv.ParseInt(lo[k]).value <= Strconv.ParseInt(hi[k]).value)
  }

  /** One step from a pointwise smaller state with a smaller magnitude stays pointwise smaller. */
  lemma StepMonotone(a: Accumulator, b: Accumulator, lo: string, hi: string, unit: string)
    requires a.seconds <= b.seconds && a.second <= b.second
    requires Strconv.ParseInt(lo).value <= Strconv.ParseInt(hi).value
    ensures Step(a, lo, unit).seconds <= Step(b, hi, unit).seconds
    ensures Step(a, lo, unit).second <= Step(b, hi, unit).second
  {
    match UnitSeconds(unit)
    case Some(weight) =>
      var x, y := Strconv.ParseInt(lo).value, Strconv.ParseInt(hi).value;
      assert Step(a, lo, unit).seconds == a.seconds + x * weight;
      assert Step(b, hi, unit).seconds == b.seconds + y * weight;
      assert x * weight <= y * weight by {
        assert (y - x) * weight >= 0;
      }
    case None =>
  }

  lemma DominatesTail(lo: seq<string>, hi: seq<string>)
    requires Dominates(lo, hi) && |lo| >= 2
    ensures Dominates(lo[2..], hi[2..])
  {
    assert forall k :: 0 <= k < |lo| - 2 ==> lo[2..][k] == lo[k + 2] && hi[2..][k] == hi[k + 2];
  }

  /** Larger magnitudes never give a smaller total, nor a smaller kept value. */
  lemma {:induction false} ScanMonotone(lo: seq<string>, hi: seq<string>, a: Accumulator, b: Accumulator)
    requires Dominates(lo, hi)
    requires a.seconds <= b.seconds && a.second <= b.second
    ensures Scan(lo, a).seconds <= Scan(hi, b).seconds
    ensures Scan(lo, a).second <= Scan(hi, b).second
    decreases |lo|
  {
    if |lo| >= 2 {
      assert lo[1] == hi[1];
      StepMonotone(a, b, lo[0], hi[0], lo[1]);
      DominatesTail(lo, hi);
      ScanMonotone(lo[2..], hi[2..], Step(a, lo[0], lo[1]), Step(b, hi[0], hi[1]));
    }
  }

  /**
   * For a fixed `now`, a phrase whose magnitudes are all at least those of
   * another, unit for unit, never evaluates to a later instant.
   */
  lemma EvaluateMonotone(lo: string, hi: string, now: int)
    requires !Strings.Contains(lo, FewSecondsMarker) && !Strings.Contains(hi, FewSecondsMarker)
    requires Dominates(Strings.Split(lo), Strings.Split(hi))
    ensures Evaluate(hi, now).instant <= Evaluate(lo, now).instant
  {
    ScanMonotone(Strings.Split(lo), Strings.Split(hi), Start, Start);
  }

  /** One stated duration: a magnitude and the unit word after it. */
  datatype Span = Span(magnitude: int, unit: string)

  /** Spans whose magnitudes fit in an int64 and whose units are single words. */
  predicate Renderable(spans: seq<Span>)
  {
    forall k :: 0 <= k < |spans| ==>
      Strconv.MinInt64 <= spans[k].magnitude <= Strconv.MaxInt64 && Strings.Space !in spans[k].unit
  }

  /** The words of the phrase that states `spans`, magnitude before unit. */
  function SpanWords(spans: seq<Span>): (words: seq<string>)
    ensures |words| == 2 * |spans|
    decreases |spans|
  {
    if |spans| == 0 then []
    else
      var last := spans[|spans| - 1];
      SpanWords(spans[..|spans| - 1]) + [Strconv.DecimalString(last.magnitude), last.unit]
  }

  /** The phrase that states `spans`, e.g. "2 years 3 months". */
  function Render(spans: seq<Span>): string
  {
    Strings.Join(SpanWords(spans))
  }

  /** The magnitude of the last span with a weighted unit, 0 if there is none. */
  function LastWeightedMagnitude(spans: seq<Span>): int
    decreases |spans|
  {
    if |spans| == 0 then 0
    else if UnitSeconds(spans[|spans| - 1].unit).Some? then spans[|spans| - 1].magnitude
    else LastWeightedMagnitude(spans[..|spans| - 1])
  }

  /**
   * The duration a list of spans states, in seconds, as the sum of what each
   * span contributes: magnitude * weight for a weighted unit, the magnitude
   * of the nearest weighted span before it for "second"/"seconds", 0 otherwise.
   */
  function Offset(spans: seq<Span>): int
    decreases |spans|
  {
    if |spans| == 0 then 0
    else
      var before, last := spans[..|spans| - 1], spans[|spans| - 1];
      Offset(before) + match UnitSeconds(last.unit)
        case Some(weight) => last.magnitude * weight
        case None => if IsSecondUnit(last.unit) then LastWeightedMagnitude(before) else 0
  }

  /** The magnitude times the unit's weight, summed; 0 for units without weight. */
  function WeightedSum(spans: seq<Span>): int
    decreases |spans|
  {
    if |spans| == 0 then 0
    else
      var last := spans[|spans| - 1];
      WeightedSum(spans[..|spans| - 1]) + match UnitSeconds(last.unit)
        case Some(weight) => last.magnitude * weight
        case None => 0
  }

  /** A rendered magnitude parses back to itself, so its step adds exactly magnitude * weight. */
  lemma StepRendered(acc: Accumulator, magnitude: int, unit: string)
    requires Strconv.MinInt64 <= magnitude <= Strconv.MaxInt64
    requires acc.err == None
    ensures Step(acc, Strconv.DecimalString(magnitude), unit) ==
      match UnitSeconds(unit)
      case Some(weight) => Accumulator(acc.seconds + magnitude * weight, magnitude, None)
      case None => if IsSecondUnit(unit) then acc.(seconds := acc.seconds + acc.second) else acc
  {
    Strconv.ParseDecimalString(magnitude);
  }

  /** The words of one more span are one more step of the loop. */
  lemma ScanLastSpan(spans: seq<Span>)
    requires |spans| > 0
    ensures
      var before, last := spans[..|spans| - 1], spans[|spans| - 1];
      Scan(SpanWords(spans), Start) == Step(Scan(SpanWords(before), Start), Strconv.DecimalString(last.magnitude), last.unit)
  {
    var before, last := spans[..|spans| - 1], spans[|spans| - 1];
    var magnitude := Strconv.DecimalString(last.magnitude);
    assert SpanWords(spans) == SpanWords(before) + [magnitude, last.unit];
    ScanAppend(SpanWords(before), [magnitude, last.unit], Start);
    ScanPair(Scan(SpanWords(before), Start), magnitude, last.unit);
  }

  /** Scanning the words of rendered spans computes their offset, without error. */
  lemma {:induction false} ScanSpanWords(spans: seq<Span>)
    requires Renderable(spans)
    ensures Scan(SpanWords(spans), Start) == Accumulator(Offset(spans), LastWeightedMagnitude(spans), None)
    decreases |spans|
  {
    if |spans| > 0 {
      var before, last := spans[..|spans| - 1], spans[|spans| - 1];
      assert Renderable(before);
      ScanSpanWords(before);
      ScanLastSpan(spans);
      StepRendered(Scan(SpanWords(before), Start), last.magnitude, last.unit);
    }
  }

  lemma {:induction false} SpanWordsHaveNoSpace(spans: seq<Span>)
    requires Renderable(spans)
    ensures forall k :: 0 <= k < |SpanWords(spans)| ==> Strings.Space !in SpanWords(spans)[k]
    decreases |spans|
  {
    if |spans| > 0 {
      var before := spans[..|spans| - 1];
      assert Renderable(before);
      SpanWordsHaveNoSpace(before);
      var magnitude := Strconv.DecimalString(spans[|spans| - 1].magnitude);
      assert forall k :: 0 <= k < |magnitude| ==> magnitude[k] != Strings.Space;
    }
  }

  /** Every space has a digit before it or a digit or '-' after it. */
  predicate SpacesTouchMagnitudes(r: string)
  {
    forall p {:trigger r[p]} :: 0 <= p < |r| && r[p] == Strings.Space ==>
      (0 < p && Strconv.IsDigit(r[p - 1])) || (p + 1 < |r| && (Strconv.IsDigit(r[p + 1]) || r[p + 1] == '-'))
  }

  /** A magnitude after a space: that space is followed by a digit or '-'. */
  lemma AppendMagnitude(r: string, m: string)
    requires SpacesTouchMagnitudes(r)
    requires |m| > 0 && forall k :: 0 <= k < |m| ==> Strconv.IsDigit(m[k]) || m[k] == '-'
    ensures SpacesTouchMagnitudes(r + [Strings.Space] + m)
  {
    var t := r + [Strings.Space] + m;
    forall p | 0 <= p < |t|
      ensures t[p] == Strings.Space ==>
        (0 < p && Strconv.IsDigit(t[p - 1])) || (p + 1 < |t| && (Strconv.IsDigit(t[p + 1]) || t[p + 1] == '-'))
    {
      if p < |r| {
        assert t[p] == r[p];
        if 0 < p { assert t[p - 1] == r[p - 1]; }
        if p + 1 < |r| { assert t[p + 1] == r[p + 1]; }
      } else if p == |r| {
        assert t[p + 1] == m[0];
      } else {
        assert t[p] == m[p - |r| - 1];
      }
    }
  }

  /** A unit after a magnitude: the space between them follows a digit. */
  lemma AppendUnit(r: string, u: string)
    requires SpacesTouchMagnitudes(r)
    requires |r| > 0 && Strconv.IsDigit(r[|r| - 1])
    requires Strings.Space !in u
    ensures SpacesTouchMagnitudes(r + [Strings.Space] + u)
  {
    var t := r + [Strings.Space] + u;
    forall p | 0 <= p < |t|
      ensures t[p] == Strings.Space ==>
        (0 < p && Strconv.IsDigit(t[p - 1])) || (p + 1 < |t| && (Strconv.IsDigit(t[p + 1]) || t[p + 1] == '-'))
    {
      if p < |r| {
        assert t[p] == r[p];
        if 0 < p { assert t[p - 1] == r[p - 1]; }
        if p + 1 < |r| { assert t[p + 1] == r[p + 1]; }
      } else if p == |r| {
        assert t[p - 1] == r[|r| - 1];
      } else {
        assert t[p] == u[p - |r| - 1];
      }
    }
  }

  /** In a rendered phrase every space separates a unit from a magnitude. */
  lemma {:induction false} RenderSpacesTouchMagnitudes(spans: seq<Span>)
    requires Renderable(spans)
    ensures SpacesTouchMagnitudes(Render(spans))
    decreases |spans|
  {
    if |spans| > 0 {
      var before, last := spans[..|spans| - 1], spans[|spans| - 1];
      var m := Strconv.DecimalString(last.magnitude);
      Strconv.DecimalStringEndsInDigit(last.magnitude);
      assert SpanWords(spans) == SpanWords(before) + [m, last.unit];
      if |before| == 0 {
        assert SpanWords(spans) == [m] + [last.unit];
        Strings.JoinAppend([m], last.unit);
        assert forall k :: 0 <= k < |m| ==> m[k] != Strings.Space;
        AppendUnit(m, last.unit);
      } else {
        assert Renderable(before);
        RenderSpacesTouchMagnitudes(before);
        assert SpanWords(spans) == SpanWords(before) + [m] + [last.unit];
        Strings.JoinAppend(SpanWords(before), m);
        Strings.JoinAppend(SpanWords(before) + [m], last.unit);
        var withMagnitude := Render(before) + [Strings.Space] + m;
        AppendMagnitude(Render(before), m);
        assert withMagnitude[|withMagnitude| - 1] == m[|m| - 1];
        AppendUnit(withMagnitude, last.unit);
      }
    }
  }

  /**
   * A phrase whose spaces all touch a magnitude cannot hold "few seconds ago":
   * there the space after "few" has a letter on both sides.
   */
  lemma NoMarkerWhereSpacesTouchMagnitudes(r: string)
    requires SpacesTouchMagnitudes(r)
    ensures !Strings.Contains(r, FewSecondsMarker)
  {
    var n := |FewSecondsMarker|;
    assert FewSecondsMarker[2] == 'w' && FewSecondsMarker[3] == Strings.Space && FewSecondsMarker[4] == 's';
    forall i
      ensures !Strings.OccursAt(r, FewSecondsMarker, i)
    {
      if 0 <= i && i + n <= |r| {
        var w := r[i..i + n];
        assert w[2] == r[i + 2] && w[3] == r[i + 3] && w[4] == r[i + 4];
        assert r[i + 3] != Strings.Space || Strconv.IsDigit(r[i + 2]) || Strconv.IsDigit(r[i + 4]) || r[i + 4] == '-';
      }
    }
  }

  /**
   * The phrase that states `spans` evaluates to `now` minus their offset, with
   * no error: rendering and evaluation agree.
   */
  lemma EvaluateRendered(spans: seq<Span>, now: int)
    requires Renderable(spans)
    ensures !Strings.Contains(Render(spans), FewSecondsMarker)
    ensures Evaluate(Render(spans), now) == Stamp(now - Offset(spans), None)
  {
    RenderSpacesTouchMagnitudes(spans);
    NoMarkerWhereSpacesTouchMagnitudes(Render(spans));
    ScanSpanWords(spans);
    if |spans| > 0 {
      SpanWordsHaveNoSpace(spans);
      Strings.SplitJoin(SpanWords(spans));
    }
  }

  /** Without "second"/"seconds" spans the offset is the plain weighted sum. */
  lemma {:induction false} OffsetIsWeightedSum(spans: seq<Span>)
    requires forall k :: 0 <= k < |spans| ==> !IsSecondUnit(spans[k].unit)
    ensures Offset(spans) == WeightedSum(spans)
    decreases |spans|
  {
    if |spans| > 0 {
      OffsetIsWeightedSum(spans[..|spans| - 1]);
    }
  }

  /** The spans 2 years and 3 months, rendered word by word. */
  lemma TwoYearsThreeMonthsWords(spans: seq<Span>)
    requires spans == [Span(2, "years"), Span(3, "months")]
    ensures SpanWords(spans) == ["2", "years", "3", "months"]
  {
    assert Strconv.DecimalString(2) == "2" && Strconv.DecimalString(3) == "3";
    assert spans[..1] == [Span(2, "years")];
    assert spans[..1][..0] == [];
  }

  lemma TwoYearsThreeMonthsJoin()
    ensures Strings.Join(["2", "years", "3", "months"]) == "2 years 3 months"
  {
  }

  lemma TwoYearsThreeMonthsOffset(spans: seq<Span>)
    requires spans == [Span(2, "years"), Span(3, "months")]
    ensures Renderable(spans)
    ensures Offset(spans) == 2 * 31536000 + 3 * 2592000
  {
    var first := spans[..1];
    assert first == [Span(2, "years")];
    assert first[..0] == [];
    assert UnitSeconds("years") == Some(31536000) && UnitSeconds("months") == Some(2592000);
    assert Offset(first) == Offset([]) + 2 * 31536000;
    assert Offset(spans) == Offset(first) + 3 * 2592000;
  }

  /** "2 years 3 months" is two years of 31536000 s and three months of 2592000 s before now. */
  lemma TwoYearsThreeMonths(phrase: string, now: int)
    requires phrase == "2 years 3 months"
    ensures Evaluate(phrase, now) == Stamp(now - (2 * 31536000 + 3 * 2592000), None)
  {
    var spans := [Span(2, "years"), Span(3, "months")];
    TwoYearsThreeMonthsWords(spans);
    TwoYearsThreeMonthsJoin();
    TwoYearsThreeMonthsOffset(spans);
    EvaluateRendered(spans, now);
  }
}
