/**
 * The deterministic coaching heuristics of the workout-intelligence class
 * (lib/workoutIntelligence.js): the RPE-to-load table, the progression-trend
 * classifier over the newest logged weights, and the keyword and line-marker
 * classifiers and counters run over the chat model's reply text. The chat
 * calls and database inserts around them are inputs here.
 */
module WorkoutIntelligence {
  import opened Wrappers
  import opened Text

  // ===================== RPE table =====================

  /** One row of the RPE table: a load multiplier and the advice shown with it. */
  datatype Adjustment = Adjustment(weightAdjust: real, message: string)

  /** The fixed table keyed by the ratings 1 to 10. */
  const AdjustmentLogic: map<int, Adjustment> := map[
    1 := Adjustment(1.10, "You're not challenging yourself enough. Increase weight by 10%."),
    2 := Adjustment(1.08, "Too easy. Increase weight by 8%."),
    3 := Adjustment(1.05, "Slightly too easy. Increase weight by 5%."),
    4 := Adjustment(1.03, "Good warm-up intensity. Small increase of 3%."),
    5 := Adjustment(1.00, "Moderate effort. Maintain current weight."),
    6 := Adjustment(1.00, "Good working intensity. Maintain weight."),
    7 := Adjustment(0.98, "High intensity reached. Consider reducing by 2% next set."),
    8 := Adjustment(0.95, "Very hard effort. Reduce weight by 5% for safety."),
    9 := Adjustment(0.90, "Near maximum effort. Reduce weight by 10%."),
    10 := Adjustment(0.85, "Maximum effort reached. Reduce weight by 15% and focus on form.")
  ]

  /**
   * `adjustmentLogic[rpeRating] || adjustmentLogic[5]`. The rating is the
   * integer the request's value names, or None when it is missing or names
   * no own key of the table (a fraction, a word). A value naming a member
   * every object inherits, such as `"constructor"`, is not modelled.
   */
  function LookupAdjustment(rating: Option<int>): (a: Adjustment)
    ensures 0.85 <= a.weightAdjust <= 1.10
  {
    if rating.Some? && rating.value in AdjustmentLogic then AdjustmentLogic[rating.value]
    else AdjustmentLogic[5]
  }

  /** The multiplier a rating of 1 to 10 selects. */
  function Multiplier(rating: int): real
    requires 1 <= rating <= 10
  {
    LookupAdjustment(Some(rating)).weightAdjust
  }

  /** Every rating outside 1 to 10, and a missing one, gets rating 5's row. */
  lemma RpeFallback(rating: Option<int>)
    requires rating.None? || rating.value < 1 || rating.value > 10
    ensures LookupAdjustment(rating) == Adjustment(1.00, "Moderate effort. Maintain current weight.")
  {
  }

  /** A harder effort never asks for more load. */
  lemma RpeMultiplierNonIncreasing(a: int, b: int)
    requires 1 <= a <= b <= 10
    ensures Multiplier(a) >= Multiplier(b)
  {
  }

  /** Ratings 1 to 4 add load, 5 and 6 keep it, 7 to 10 take load off. */
  lemma RpeMultiplierDirection(rating: int)
    requires 1 <= rating <= 10
    ensures rating <= 4 ==> Multiplier(rating) > 1.0
    ensures 5 <= rating <= 6 ==> Multiplier(rating) == 1.0
    ensures 7 <= rating ==> Multiplier(rating) < 1.0
  {
  }

  /** A JavaScript number that is finite or NaN (the only non-finite value that arises here). */
  datatype Number = Finite(value: real) | NaN

  /** Reading member `key` of a table row: `undefined` (None) for any name but `weightAdjust`. */
  function Member(a: Adjustment, key: string): (v: Option<real>)
    ensures v.Some? <==> key == "weightAdjust"
    ensures v.Some? ==> v.value == a.weightAdjust
  {
    if key == "weightAdjust" then Some(a.weightAdjust) else None
  }

  /** `weight * factor`, where multiplying by `undefined` gives NaN. */
  function Times(weight: real, factor: Option<real>): Number {
    if factor.Some? then Finite(weight * factor.value) else NaN
  }

  /** `Math.round` of a finite number: the nearest integer, halves rounded up. */
  function Round(x: real): (n: int)
    ensures x - 0.5 < n as real <= x + 0.5
  {
    (x + 0.5).Floor
  }

  function RoundNumber(x: Number): Number {
    if x.Finite? then Finite(Round(x.value) as real) else NaN
  }

  /** `nextWeight` as written: it reads the member `weightAdjustment`, which no row has. */
  function NextWeightAsWritten(weight: real, rating: Option<int>): Number {
    RoundNumber(Times(weight, Member(LookupAdjustment(rating), "weightAdjustment")))
  }

  /** Whatever the weight and rating, the suggested next weight as written is NaN. */
  lemma NextWeightAsWrittenIsNaN(weight: real, rating: Option<int>)
    ensures NextWeightAsWritten(weight, rating) == NaN
  {
    assert Member(LookupAdjustment(rating), "weightAdjustment").None?;
  }

  /** `nextWeight` as evidently intended: the current weight scaled by the row's multiplier, rounded. */
  function NextWeight(weight: real, rating: Option<int>): Number {
    ScaledWeight(weight, LookupAdjustment(rating))
  }

  /** `Math.round(weight * row.weightAdjust)` for one row of the table. */
  function ScaledWeight(weight: real, a: Adjustment): Number {
    RoundNumber(Times(weight, Member(a, "weightAdjust")))
  }

  lemma RoundMonotone(x: real, y: real)
    requires x <= y
    ensures Round(x) <= Round(y)
  {
    assert (Round(x) as real) < (Round(y) as real) + 1.0;
  }

  /**
   * A weight scaled by `m` and rounded is within half a unit of the scaled
   * weight and, for a non-negative weight, no lighter (heavier) than the
   * rounded weight when `m` is above (below) 1.
   */
  lemma RoundScaled(weight: real, m: real)
    ensures weight * m - 0.5 < Round(weight * m) as real <= weight * m + 0.5
    ensures weight >= 0.0 && m > 1.0 ==> Round(weight) <= Round(weight * m)
    ensures m == 1.0 ==> Round(weight * m) == Round(weight)
    ensures weight >= 0.0 && m < 1.0 ==> Round(weight * m) <= Round(weight)
  {
    if weight >= 0.0 && m >= 1.0 {
      assert weight * 1.0 <= weight * m;
      RoundMonotone(weight, weight * m);
    }
    if weight >= 0.0 && m <= 1.0 {
      assert weight * m <= weight * 1.0;
      RoundMonotone(weight * m, weight);
    }
    if m == 1.0 {
      assert weight * m == weight;
    }
  }

  /** What `ScaledWeight` gives for a row, in terms of its multiplier. */
  lemma ScaledWeightFollows(weight: real, a: Adjustment)
    ensures var n := ScaledWeight(weight, a);
      var m := a.weightAdjust;
      && n.Finite? && weight * m - 0.5 < n.value <= weight * m + 0.5
      && (weight >= 0.0 && m > 1.0 ==> n.value >= Round(weight) as real)
      && (m == 1.0 ==> n.value == Round(weight) as real)
      && (weight >= 0.0 && m < 1.0 ==> n.value <= Round(weight) as real)
  {
    var m := a.weightAdjust;
    var x := weight * m;
    assert Member(a, "weightAdjust") == Some(m);
    assert Times(weight, Some(m)) == Finite(x);
    assert RoundNumber(Finite(x)) == Finite(Round(x) as real);
    RoundScaled(weight, m);
  }

  /**
   * The intended next weight is finite, within half a unit of the scaled
   * weight, and for a non-negative weight moves the way the rating asks:
   * up for ratings 1 to 4, unchanged for 5 and 6 (and unknown ratings),
   * down for 7 to 10, compared with the rounded current weight.
   */
  lemma NextWeightFollowsRating(weight: real, rating: Option<int>)
    ensures var n := NextWeight(weight, rating);
      var m := LookupAdjustment(rating).weightAdjust;
      && n.Finite? && weight * m - 0.5 < n.value <= weight * m + 0.5
      && (weight >= 0.0 && m > 1.0 ==> n.value >= Round(weight) as real)
      && (m == 1.0 ==> n.value == Round(weight) as real)
      && (weight >= 0.0 && m < 1.0 ==> n.value <= Round(weight) as real)
  {
    ScaledWeightFollows(weight, LookupAdjustment(rating));
  }

  /** The fields of `processRPEFeedback`'s result that the model computes. */
  datatype RpeFeedback = RpeFeedback(
    success: bool,
    currentRpe: Option<int>,
    weightAdjustment: real,
    nextWeight: Number,
    message: string,
    aiAnalysis: string,
    progressionTrend: Trend)

  /**
   * The result of `processRPEFeedback` for an exercise at `weight`, as
   * written; the chat model's analysis and the trend read back from the
   * database come in as parameters. The multiplier and message are the
   * rating's row (row 5 for a rating that is not a key); `nextWeight` is the
   * NaN that line 175 computes (see `NextWeightAsWrittenIsNaN`; the intended
   * value is `NextWeight`).
   */
  function ProcessRpeFeedback(rating: Option<int>, weight: real, aiAnalysis: string, history: Option<seq<real>>): (r: RpeFeedback)
    ensures r.success && r.currentRpe == rating && r.aiAnalysis == aiAnalysis
    ensures rating.Some? && rating.value in AdjustmentLogic ==>
      r.weightAdjustment == AdjustmentLogic[rating.value].weightAdjust && r.message == AdjustmentLogic[rating.value].message
    ensures !(rating.Some? && rating.value in AdjustmentLogic) ==>
      r.weightAdjustment == AdjustmentLogic[5].weightAdjust && r.message == AdjustmentLogic[5].message
    ensures 0.85 <= r.weightAdjustment <= 1.10
    ensures r.nextWeight == NaN
    ensures r.progressionTrend == ProgressionTrend(history)
  {
    var adjustment := LookupAdjustment(rating);
    NextWeightAsWrittenIsNaN(weight, rating);
    RpeFeedback(true, rating, adjustment.weightAdjust, NextWeightAsWritten(weight, rating), adjustment.message,
                aiAnalysis, ProgressionTrend(history))
  }

  // ===================== progression trend =====================

  datatype Trend = InsufficientData | Improving | Declining | Stable | Unknown

  function Min(a: int, b: int): int { if a <= b then a else b }

  /** JavaScript's `rows.slice(lo, hi)` for 0 <= lo <= hi. */
  function Slice(rows: seq<real>, lo: nat, hi: nat): (r: seq<real>)
    requires lo <= hi
    ensures |r| == Min(hi, |rows|) - Min(lo, |rows|)
  {
    rows[Min(lo, |rows|)..Min(hi, |rows|)]
  }

  /** `reduce((sum, r) => sum + r.weight, 0)`, adding left to right. */
  function Sum(s: seq<real>): real {
    if |s| == 0 then 0.0 else Sum(s[..|s| - 1]) + s[|s| - 1]
  }

  /** Sum divided by length; None stands for the NaN that 0 / 0 gives. */
  function Average(s: seq<real>): Option<real> {
    if |s| == 0 then None else Some(Sum(s) / |s| as real)
  }

  /** `x > y * f`, false when either side is NaN. */
  predicate Exceeds(x: Option<real>, y: Option<real>, f: real) {
    x.Some? && y.Some? && x.value > y.value * f
  }

  /** `x < y * f`, false when either side is NaN. */
  predicate FallsBelow(x: Option<real>, y: Option<real>, f: real) {
    x.Some? && y.Some? && x.value < y.value * f
  }

  /**
   * `getProgressionTrend`: `history` holds the logged weights of one user
   * and exercise, newest first, or None when the query throws. The query's
   * `LIMIT 10` keeps the ten newest; the newest three are compared with the
   * next three.
   */
  function ProgressionTrend(history: Option<seq<real>>): (t: Trend)
    ensures t == Unknown <==> history.None?
  {
    match history
    case None => Unknown
    case Some(all) =>
      var rows := Slice(all, 0, 10);
      if |rows| < 2 then InsufficientData
      else
        var recentAvg := Average(Slice(rows, 0, 3));
        var olderAvg := Average(Slice(rows, 3, 6));
        if Exceeds(recentAvg, olderAvg, 1.05) then Improving
        else if FallsBelow(recentAvg, olderAvg, 0.95) then Declining
        else Stable
  }

  /** Fewer than two rows is the only way to get `insufficient_data`. */
  lemma TrendInsufficientIff(history: seq<real>)
    ensures ProgressionTrend(Some(history)) == InsufficientData <==> |history| < 2
  {
  }

  /** With two or three rows the older window is empty, its average is NaN, and the trend is stable. */
  lemma TrendShortHistoryStable(history: seq<real>)
    requires 2 <= |history| <= 3
    ensures ProgressionTrend(Some(history)) == Stable
  {
    assert Slice(Slice(history, 0, 10), 3, 6) == [];
  }

  /** Only the six newest rows matter once there are six. */
  lemma TrendSeesSixNewest(h1: seq<real>, h2: seq<real>)
    requires |h1| >= 6 && |h2| >= 6 && h1[..6] == h2[..6]
    ensures ProgressionTrend(Some(h1)) == ProgressionTrend(Some(h2))
  {
    var r1, r2 := Slice(h1, 0, 10), Slice(h2, 0, 10);
    assert Slice(r1, 0, 3) == h1[..6][..3] == Slice(r2, 0, 3);
    assert Slice(r1, 3, 6) == h1[..6][3..] == Slice(r2, 3, 6);
  }

  lemma {:induction false} SumBelow(s: seq<real>, b: real)
    requires forall i :: 0 <= i < |s| ==> s[i] <= b
    ensures Sum(s) <= |s| as real * b
  {
    if |s| > 0 {
      SumBelow(s[..|s| - 1], b);
    }
  }

  lemma {:induction false} SumAbove(s: seq<real>, b: real)
    requires forall i :: 0 <= i < |s| ==> s[i] >= b
    ensures Sum(s) >= |s| as real * b
  {
    if |s| > 0 {
      SumAbove(s[..|s| - 1], b);
    }
  }

  lemma {:induction false} SumStrictlyAbove(s: seq<real>, b: real)
    requires |s| > 0
    requires forall i :: 0 <= i < |s| ==> s[i] > b
    ensures Sum(s) > |s| as real * b
  {
    if |s| > 1 {
      SumStrictlyAbove(s[..|s| - 1], b);
    }
  }

  lemma {:induction false} SumStrictlyBelow(s: seq<real>, b: real)
    requires |s| > 0
    requires forall i :: 0 <= i < |s| ==> s[i] < b
    ensures Sum(s) < |s| as real * b
  {
    if |s| > 1 {
      SumStrictlyBelow(s[..|s| - 1], b);
    }
  }

  /** The average of weights all above `b` is above `b`. */
  lemma AverageAbove(s: seq<real>, b: real)
    requires |s| > 0 && forall i :: 0 <= i < |s| ==> s[i] > b
    ensures Average(s).Some? && Average(s).value > b
  {
    SumStrictlyAbove(s, b);
    var n := |s| as real;
    assert Sum(s) / n > b by {
      assert Sum(s) > n * b;
    }
  }

  /** The average of weights all below `b` is below `b`. */
  lemma AverageBelow(s: seq<real>, b: real)
    requires |s| > 0 && forall i :: 0 <= i < |s| ==> s[i] < b
    ensures Average(s).Some? && Average(s).value < b
  {
    SumStrictlyBelow(s, b);
    var n := |s| as real;
    assert Sum(s) / n < b by {
      assert Sum(s) < n * b;
    }
  }

  /** The average of weights none above `b` is not above `b`. */
  lemma AverageAtMost(s: seq<real>, b: real)
    requires |s| > 0 && forall i :: 0 <= i < |s| ==> s[i] <= b
    ensures Average(s).Some? && Average(s).value <= b
  {
    SumBelow(s, b);
    var n := |s| as real;
    assert Sum(s) / n <= b by {
      assert Sum(s) <= n * b;
    }
  }

  /** The average of weights none below `b` is not below `b`. */
  lemma AverageAtLeast(s: seq<real>, b: real)
    requires |s| > 0 && forall i :: 0 <= i < |s| ==> s[i] >= b
    ensures Average(s).Some? && Average(s).value >= b
  {
    SumAbove(s, b);
    var n := |s| as real;
    assert Sum(s) / n >= b by {
      assert Sum(s) >= n * b;
    }
  }

  /** The two windows of a history of four rows or more: the three newest, then the next one to three. */
  lemma TrendWindows(history: seq<real>)
    requires |history| >= 4
    ensures var rows := Slice(history, 0, 10);
      && Slice(rows, 0, 3) == history[..3]
      && 1 <= |Slice(rows, 3, 6)| <= 3
      && forall i :: 0 <= i < |Slice(rows, 3, 6)| ==> Slice(rows, 3, 6)[i] == history[3 + i]
  {
  }

  /**
   * When each of the three newest weights is more than 5% above a level
   * that none of the next (up to three) weights exceeds, the trend is
   * improving.
   */
  lemma TrendImprovingWhenRecentClearlyHeavier(history: seq<real>, level: real)
    requires |history| >= 4
    requires forall i :: 0 <= i < 3 ==> history[i] > level * 1.05
    requires forall i :: 3 <= i < 6 && i < |history| ==> history[i] <= level
    ensures ProgressionTrend(Some(history)) == Improving
  {
    var rows := Slice(history, 0, 10);
    var recent, older := Slice(rows, 0, 3), Slice(rows, 3, 6);
    TrendWindows(history);
    AverageAbove(recent, level * 1.05);
    AverageAtMost(older, level);
    assert Exceeds(Average(recent), Average(older), 1.05);
  }

  /**
   * When each of the three newest weights is more than 5% below a
   * non-negative level that none of the next (up to three) weights falls
   * under, the trend is declining.
   */
  lemma TrendDecliningWhenRecentClearlyLighter(history: seq<real>, level: real)
    requires |history| >= 4 && level >= 0.0
    requires forall i :: 0 <= i < 3 ==> history[i] < level * 0.95
    requires forall i :: 3 <= i < 6 && i < |history| ==> history[i] >= level
    ensures ProgressionTrend(Some(history)) == Declining
  {
    var rows := Slice(history, 0, 10);
    var recent, older := Slice(rows, 0, 3), Slice(rows, 3, 6);
    TrendWindows(history);
    AverageBelow(recent, level * 0.95);
    AverageAtLeast(older, level);
    assert !Exceeds(Average(recent), Average(older), 1.05);
    assert FallsBelow(Average(recent), Average(older), 0.95);
  }

  function Scaled(s: seq<real>, c: real): (r: seq<real>)
    ensures |r| == |s|
    ensures forall i :: 0 <= i < |s| ==> r[i] == c * s[i]
  {
    seq(|s|, i requires 0 <= i < |s| => c * s[i])
  }

  lemma {:induction false} SumScaled(s: seq<real>, c: real)
    ensures Sum(Scaled(s, c)) == c * Sum(s)
  {
    if |s| > 0 {
      var init := s[..|s| - 1];
      SumScaled(init, c);
      SliceScaled(s, c, 0, |s| - 1);
      assert Slice(s, 0, |s| - 1) == init;
    }
  }

  lemma SliceScaled(s: seq<real>, c: real, lo: nat, hi: nat)
    requires lo <= hi
    ensures Slice(Scaled(s, c), lo, hi) == Scaled(Slice(s, lo, hi), c)
  {
    var x, y := Slice(Scaled(s, c), lo, hi), Scaled(Slice(s, lo, hi), c);
    assert |x| == |y|;
    assert forall i :: 0 <= i < |x| ==> x[i] == y[i];
  }

  lemma AverageScaled(s: seq<real>, c: real)
    ensures Average(Scaled(s, c)).Some? <==> Average(s).Some?
    ensures Average(s).Some? ==> Average(Scaled(s, c)).value == c * Average(s).value
  {
    SumScaled(s, c);
    if |s| > 0 {
      var n := |s| as real;
      var avg := Average(s).value;
      var scaledAvg := Average(Scaled(s, c)).value;
      assert avg * n == Sum(s);
      assert scaledAvg * n == c * Sum(s);
      assert scaledAvg * n == (c * avg) * n;
      CancelPositive(scaledAvg, c * avg, n);
    }
  }

  lemma CancelPositive(x: real, y: real, n: real)
    requires n > 0.0 && x * n == y * n
    ensures x == y
  {
    assert (x - y) * n == 0.0;
  }

  lemma ScaledComparison(x: real, y: real, c: real, f: real)
    requires c > 0.0
    ensures (c * x > c * y * f) <==> (x > y * f)
    ensures (c * x < c * y * f) <==> (x < y * f)
  {
    assert c * x - c * y * f == c * (x - y * f);
  }

  /** Both averages scaled by the same positive factor compare as before. */
  lemma ComparisonsScaled(r: Option<real>, o: Option<real>, r': Option<real>, o': Option<real>, c: real)
    requires c > 0.0
    requires (r'.Some? <==> r.Some?) && (r.Some? ==> r'.value == c * r.value)
    requires (o'.Some? <==> o.Some?) && (o.Some? ==> o'.value == c * o.value)
    ensures Exceeds(r', o', 1.05) == Exceeds(r, o, 1.05)
    ensures FallsBelow(r', o', 0.95) == FallsBelow(r, o, 0.95)
  {
    if r.Some? && o.Some? {
      ScaledComparison(r.value, o.value, c, 1.05);
      ScaledComparison(r.value, o.value, c, 0.95);
    }
  }

  /** Converting every weight to another unit (any positive factor) leaves the trend unchanged. */
  lemma TrendUnitInvariant(history: seq<real>, c: real)
    requires c > 0.0
    ensures ProgressionTrend(Some(Scaled(history, c))) == ProgressionTrend(Some(history))
  {
    var rows := Slice(history, 0, 10);
    var rows' := Slice(Scaled(history, c), 0, 10);
    SliceScaled(history, c, 0, 10);
    var recent, older := Slice(rows, 0, 3), Slice(rows, 3, 6);
    SliceScaled(rows, c, 0, 3);
    SliceScaled(rows, c, 3, 6);
    AverageScaled(recent, c);
    AverageScaled(older, c);
    ComparisonsScaled(Average(recent), Average(older),
      Average(Slice(rows', 0, 3)), Average(Slice(rows', 3, 6)), c);
  }

  // ===================== keyword classifiers =====================

  const ReasoningPatterns: seq<string> := ["reasoning", "because", "due to", "based on"]
  const ReasonedNote := "AI provided scientific reasoning for adjustments"
  const StandardNote := "Standard progression applied"

  /** `extractReasoningFromAdjustment`: whether `/reasoning|because|due to|based on/gi` matches anywhere. */
  function ExtractReasoningFromAdjustment(adjustment: string): (note: string)
    ensures note == ReasonedNote || note == StandardNote
  {
    if ContainsAny(ToLower(adjustment), ReasoningPatterns) then ReasonedNote else StandardNote
  }

  const SafetyKeywords: seq<string> := ["safety", "injury", "caution", "warning", "risk"]
  const SafetyNotedNote := "Safety considerations noted"
  const NoSafetyNote := "No special safety concerns"

  /** `extractSafetyNotes`: whether any safety keyword is in the lower-cased text. */
  function ExtractSafetyNotes(adjustment: string): (note: string)
    ensures note == SafetyNotedNote || note == NoSafetyNote
  {
    if ContainsAny(ToLower(adjustment), SafetyKeywords) then SafetyNotedNote else NoSafetyNote
  }

  /** Both notes ignore letter case: the text and its lower-cased form get the same notes. */
  lemma NotesIgnoreCase(adjustment: string)
    ensures ExtractReasoningFromAdjustment(ToLower(adjustment)) == ExtractReasoningFromAdjustment(adjustment)
    ensures ExtractSafetyNotes(ToLower(adjustment)) == ExtractSafetyNotes(adjustment)
  {
    ToLowerIdempotent(adjustment);
  }

  /** Once either note reports a keyword, no text added before or after can take it back. */
  lemma NotesSurviveAppending(adjustment: string, extra: string)
    ensures ExtractReasoningFromAdjustment(adjustment) == ReasonedNote ==>
      ExtractReasoningFromAdjustment(adjustment + extra) == ReasonedNote &&
      ExtractReasoningFromAdjustment(extra + adjustment) == ReasonedNote
    ensures ExtractSafetyNotes(adjustment) == SafetyNotedNote ==>
      ExtractSafetyNotes(adjustment + extra) == SafetyNotedNote &&
      ExtractSafetyNotes(extra + adjustment) == SafetyNotedNote
  {
    ToLowerAppend(adjustment, extra);
    ToLowerAppend(extra, adjustment);
    if ContainsAny(ToLower(adjustment), ReasoningPatterns) {
      ContainsAnyExtend(ToLower(adjustment), ToLower(extra), ReasoningPatterns);
    }
    if ContainsAny(ToLower(adjustment), SafetyKeywords) {
      ContainsAnyExtend(ToLower(adjustment), ToLower(extra), SafetyKeywords);
    }
  }

  datatype RiskLevel = Low | Medium | High

  function Rank(r: RiskLevel): nat {
    match r
    case Low => 0
    case Medium => 1
    case High => 2
  }

  const HighRiskWords: seq<string> := ["dangerous", "injury risk", "stop immediately", "high risk"]
  const MediumRiskWords: seq<string> := ["caution", "careful", "watch out", "moderate risk"]

  /** `assessFormRisk`: a high phrase wins over a medium one; neither gives low. */
  function AssessFormRisk(analysis: string): RiskLevel {
    var text := ToLower(analysis);
    if ContainsAny(text, HighRiskWords) then High
    else if ContainsAny(text, MediumRiskWords) then Medium
    else Low
  }

  /** `categorizeRiskLevel`: "high risk" or "immediate" is high, "moderate" or "caution" medium, else low. */
  function CategorizeRiskLevel(analysis: string): RiskLevel {
    var text := ToLower(analysis);
    if Contains(text, "high risk") || Contains(text, "immediate") then High
    else if Contains(text, "moderate") || Contains(text, "caution") then Medium
    else Low
  }

  /** Appending text to an analysis, before or after, never lowers either risk level. */
  lemma RiskNeverDropsWhenTextAdded(analysis: string, extra: string)
    ensures Rank(AssessFormRisk(analysis)) <= Rank(AssessFormRisk(analysis + extra))
    ensures Rank(AssessFormRisk(analysis)) <= Rank(AssessFormRisk(extra + analysis))
    ensures Rank(CategorizeRiskLevel(analysis)) <= Rank(CategorizeRiskLevel(analysis + extra))
    ensures Rank(CategorizeRiskLevel(analysis)) <= Rank(CategorizeRiskLevel(extra + analysis))
  {
    ToLowerAppend(analysis, extra);
    ToLowerAppend(extra, analysis);
    AssessFormRiskGrows(analysis, ToLower(analysis) + ToLower(extra), ToLower(extra));
    AssessFormRiskGrows(analysis, ToLower(extra) + ToLower(analysis), ToLower(extra));
    CategorizeRiskGrows(analysis, ToLower(analysis) + ToLower(extra), ToLower(extra));
    CategorizeRiskGrows(analysis, ToLower(extra) + ToLower(analysis), ToLower(extra));
  }

  /** `AssessFormRisk` on a text whose lowered form holds the analysis' lowered form, at either end. */
  lemma AssessFormRiskGrows(analysis: string, text: string, e: string)
    requires text == ToLower(analysis) + e || text == e + ToLower(analysis)
    ensures Rank(AssessFormRisk(analysis)) <= Rank(if ContainsAny(text, HighRiskWords) then High
      else if ContainsAny(text, MediumRiskWords) then Medium else Low)
  {
    var a := ToLower(analysis);
    if ContainsAny(a, HighRiskWords) {
      ContainsAnyExtend(a, e, HighRiskWords);
    }
    if ContainsAny(a, MediumRiskWords) {
      ContainsAnyExtend(a, e, MediumRiskWords);
    }
  }

  /** `CategorizeRiskLevel` likewise. */
  lemma CategorizeRiskGrows(analysis: string, text: string, e: string)
    requires text == ToLower(analysis) + e || text == e + ToLower(analysis)
    ensures Rank(CategorizeRiskLevel(analysis)) <= Rank(
      if Contains(text, "high risk") || Contains(text, "immediate") then High
      else if Contains(text, "moderate") || Contains(text, "caution") then Medium else Low)
  {
    var a := ToLower(analysis);
    forall w | w in ["high risk", "immediate", "moderate", "caution"] && Contains(a, w)
      ensures Contains(text, w)
    {
      ContainsExtend(a, e, w);
    }
  }

  /**
   * The two classifiers agree on the phrases they share: "high risk" and
   * "stop immediately" (which contains "immediate") are high for both, and
   * "caution" is at least medium for both.
   */
  lemma RiskClassifiersAgreeOnSharedPhrases(analysis: string)
    ensures var text := ToLower(analysis);
      (Contains(text, "high risk") || Contains(text, "stop immediately")) ==>
        AssessFormRisk(analysis) == High && CategorizeRiskLevel(analysis) == High
    ensures Contains(ToLower(analysis), "caution") ==>
      Rank(AssessFormRisk(analysis)) >= 1 && Rank(CategorizeRiskLevel(analysis)) >= 1
  {
    var text := ToLower(analysis);
    if Contains(text, "high risk") {
      ContainsAnyWitness(text, HighRiskWords, 3);
    }
    if Contains(text, "stop immediately") {
      ContainsAnyWitness(text, HighRiskWords, 2);
      assert OccursAt("stop immediately", 5, "immediate");
      ContainsTransitive(text, "stop immediately", "immediate");
    }
    if Contains(text, "caution") {
      ContainsAnyWitness(text, MediumRiskWords, 0);
    }
  }

  // ===================== counting regex matches =====================

  /**
   * Index of the first word of `words`, in order, that occurs at `p`: the
   * alternative a regex alternation picks there. `|words|` when none does.
   */
  function FirstWordFrom(s: string, words: seq<string>, p: nat, k: nat): (r: nat)
    requires k <= |words|
    ensures k <= r <= |words|
    ensures r < |words| ==> OccursAt(s, p, words[r])
    decreases |words| - k
  {
    if k == |words| then k
    else if OccursAt(s, p, words[k]) then k
    else FirstWordFrom(s, words, p, k + 1)
  }

  predicate NonEmptyWords(words: seq<string>) {
    forall m :: 0 <= m < |words| ==> |words[m]| > 0
  }

  /**
   * The number of matches `s.match(/w1|w2|.../g)` returns, scanning from
   * `p`: where a word occurs, count it and resume after it; elsewhere move on
   * by one character.
   */
  function KeywordScan(s: string, words: seq<string>, p: nat): nat
    requires p <= |s| && NonEmptyWords(words)
    decreases |s| - p
  {
    if p == |s| then 0
    else
      var k := FirstWordFrom(s, words, p, 0);
      if k < |words| then 1 + KeywordScan(s, words, p + |words[k]|)
      else KeywordScan(s, words, p + 1)
  }

  /** Some word of `words` starts at `p`. */
  predicate WordAt(s: string, words: seq<string>, p: nat) {
    exists m :: 0 <= m < |words| && OccursAt(s, p, words[m])
  }

  /** The number of positions from `p` on where some word starts. */
  function OccurrenceCount(s: string, words: seq<string>, p: nat): nat
    decreases |s| - p
  {
    if p >= |s| then 0
    else (if WordAt(s, words, p) then 1 else 0) + OccurrenceCount(s, words, p + 1)
  }

  /**
   * `v` cannot start at offset `j` inside `w`: their first three characters
   * already disagree there. A word list where this holds for every pair and
   * offset never has one occurrence start inside another.
   */
  predicate DiffersEarly(w: string, j: nat, v: string)
    requires j < |w| && |v| >= 3
  {
    || w[j] != v[0]
    || (j + 1 < |w| && w[j + 1] != v[1])
    || (j + 2 < |w| && w[j + 2] != v[2])
  }

  predicate NoOverlap(words: seq<string>) {
    && (forall m :: 0 <= m < |words| ==> |words[m]| >= 3)
    && forall k, j, m :: 0 <= k < |words| && 0 < j < |words[k]| && 0 <= m < |words| ==>
         DiffersEarly(words[k], j, words[m])
  }

  /** Where `w` occurs at `p` and `v` at `p + j`, their overlapping first characters agree. */
  lemma OverlapAgrees(s: string, p: nat, w: string, j: nat, v: string)
    requires j < |w| && |v| >= 3 && OccursAt(s, p, w)
    ensures OccursAt(s, p + j, v) ==>
      && w[j] == v[0]
      && (j + 1 < |w| ==> w[j + 1] == v[1])
      && (j + 2 < |w| ==> w[j + 2] == v[2])
  {
    if OccursAt(s, p + j, v) {
      forall t | 0 <= t < 3 && j + t < |w|
        ensures w[j + t] == v[t]
      {
        assert s[p..p + |w|][j + t] == s[p + j + t];
        assert s[p + j..p + j + |v|][t] == s[p + j + t];
      }
    }
  }

  lemma NoWordInsideWord(s: string, words: seq<string>, p: nat, k: nat, j: nat)
    requires NoOverlap(words) && k < |words| && 0 < j < |words[k]|
    requires OccursAt(s, p, words[k])
    ensures !WordAt(s, words, p + j)
  {
    forall m | 0 <= m < |words|
      ensures !OccursAt(s, p + j, words[m])
    {
      OverlapAgrees(s, p, words[k], j, words[m]);
      assert DiffersEarly(words[k], j, words[m]);
    }
  }

  /** Positions that start no word add nothing to the count. */
  lemma {:induction false} OccurrenceCountSkip(s: string, words: seq<string>, p: nat, q: nat)
    requires p <= q
    requires forall i :: p <= i < q ==> !WordAt(s, words, i)
    ensures OccurrenceCount(s, words, p) == OccurrenceCount(s, words, q)
    decreases q - p
  {
    if p < q {
      OccurrenceCountSkip(s, words, p + 1, q);
    }
  }

  /** A word found at `p` counts once, and nothing starts inside it. */
  lemma FoundWordCounts(s: string, words: seq<string>, p: nat, k: nat)
    requires NoOverlap(words) && k < |words| && OccursAt(s, p, words[k])
    ensures OccurrenceCount(s, words, p) == 1 + OccurrenceCount(s, words, p + |words[k]|)
  {
    var n := |words[k]|;
    forall i | p + 1 <= i < p + n ensures !WordAt(s, words, i) {
      NoWordInsideWord(s, words, p, k, i - p);
    }
    OccurrenceCountSkip(s, words, p + 1, p + n);
    assert WordAt(s, words, p);
  }

  /** When the alternation finds no word at `p`, none of the words from `k` on occurs there. */
  lemma {:induction false} NoFirstWord(s: string, words: seq<string>, p: nat, k: nat)
    requires k <= |words| && FirstWordFrom(s, words, p, k) == |words|
    ensures forall i :: k <= i < |words| ==> !OccursAt(s, p, words[i])
    decreases |words| - k
  {
    if k < |words| {
      NoFirstWord(s, words, p, k + 1);
    }
  }

  /** Where no word of the list occurs at `p`, the position adds nothing. */
  lemma NoWordCounts(s: string, words: seq<string>, p: nat)
    requires p < |s| && FirstWordFrom(s, words, p, 0) == |words|
    ensures OccurrenceCount(s, words, p) == OccurrenceCount(s, words, p + 1)
  {
    NoFirstWord(s, words, p, 0);
    assert !WordAt(s, words, p);
  }

  /** Where the scan resumes after position `p`: past the word found there, or one character on. */
  function ScanResume(s: string, words: seq<string>, p: nat): (q: nat)
    requires p < |s| && NonEmptyWords(words)
    ensures p < q <= |s|
  {
    var k := FirstWordFrom(s, words, p, 0);
    if k < |words| then p + |words[k]| else p + 1
  }

  /** A step of the scan past the word found at `p` agrees with the count when the rest does. */
  lemma ScanAgreesFound(s: string, words: seq<string>, p: nat)
    requires p < |s| && NoOverlap(words) && FirstWordFrom(s, words, p, 0) < |words|
    requires KeywordScan(s, words, ScanResume(s, words, p)) == OccurrenceCount(s, words, ScanResume(s, words, p))
    ensures KeywordScan(s, words, p) == OccurrenceCount(s, words, p)
  {
    assert NonEmptyWords(words);
    var k := FirstWordFrom(s, words, p, 0);
    var q := p + |words[k]|;
    assert ScanResume(s, words, p) == q;
    assert KeywordScan(s, words, p) == 1 + KeywordScan(s, words, q);
    FoundWordCounts(s, words, p, k);
  }

  /** A step of the scan by one character agrees with the count when the rest does. */
  lemma ScanAgreesMissed(s: string, words: seq<string>, p: nat)
    requires p < |s| && NoOverlap(words) && FirstWordFrom(s, words, p, 0) == |words|
    requires KeywordScan(s, words, ScanResume(s, words, p)) == OccurrenceCount(s, words, ScanResume(s, words, p))
    ensures KeywordScan(s, words, p) == OccurrenceCount(s, words, p)
  {
    assert ScanResume(s, words, p) == p + 1;
    NoWordCounts(s, words, p);
  }

  /** The scan and the count agree at `p` once they agree where the scan resumes. */
  lemma ScanAgreesAt(s: string, words: seq<string>, p: nat)
    requires p < |s| && NoOverlap(words)
    requires KeywordScan(s, words, ScanResume(s, words, p)) == OccurrenceCount(s, words, ScanResume(s, words, p))
    ensures KeywordScan(s, words, p) == OccurrenceCount(s, words, p)
  {
    if FirstWordFrom(s, words, p, 0) < |words| {
      ScanAgreesFound(s, words, p);
    } else {
      ScanAgreesMissed(s, words, p);
    }
  }

  /** For a word list without overlaps, the regex scan counts exactly the positions where a word starts. */
  lemma {:induction false} KeywordScanCountsOccurrences(s: string, words: seq<string>, p: nat)
    requires p <= |s| && NoOverlap(words)
    ensures KeywordScan(s, words, p) == OccurrenceCount(s, words, p)
    decreases |s| - p
  {
    if p < |s| {
      KeywordScanCountsOccurrences(s, words, ScanResume(s, words, p));
      ScanAgreesAt(s, words, p);
    }
  }

  /** No occurrence anywhere is the same as a count of 0. */
  lemma {:induction false} OccurrenceCountZeroIff(s: string, words: seq<string>, p: nat)
    ensures OccurrenceCount(s, words, p) == 0 <==> forall i :: p <= i < |s| ==> !WordAt(s, words, i)
    decreases |s| - p
  {
    if p < |s| {
      OccurrenceCountZeroIff(s, words, p + 1);
    }
  }

  lemma NoWordAtIffNotContainsAny(s: string, words: seq<string>)
    requires NonEmptyWords(words)
    ensures (forall i :: 0 <= i < |s| ==> !WordAt(s, words, i)) <==> !ContainsAny(s, words)
  {
    if ContainsAny(s, words) {
      var m :| 0 <= m < |words| && Contains(s, words[m]);
      var i :| 0 <= i <= |s| - |words[m]| && OccursAt(s, i, words[m]);
      assert WordAt(s, words, i);
    }
    if exists i :: 0 <= i < |s| && WordAt(s, words, i) {
      var i :| 0 <= i < |s| && WordAt(s, words, i);
      var m :| 0 <= m < |words| && OccursAt(s, i, words[m]);
      assert Contains(s, words[m]);
    }
  }

  /** Every occurrence in a piece is still one in the joined text: counts never drop, and pieces add up. */
  lemma {:induction false} OccurrenceCountSuperadditive(s: string, t: string, words: seq<string>, p: nat)
    requires p <= |s|
    ensures OccurrenceCount(s + t, words, p) >= OccurrenceCount(s, words, p) + OccurrenceCount(t, words, 0)
    decreases |s| - p
  {
    if p < |s| {
      OccurrenceCountSuperadditive(s, t, words, p + 1);
      if WordAt(s, words, p) {
        var m :| 0 <= m < |words| && OccursAt(s, p, words[m]);
        assert (s + t)[p..p + |words[m]|] == s[p..p + |words[m]|];
        assert OccursAt(s + t, p, words[m]);
      }
    } else {
      OccurrenceCountShift(s, t, words, 0);
    }
  }

  lemma {:induction false} OccurrenceCountShift(s: string, t: string, words: seq<string>, q: nat)
    requires q <= |t|
    ensures OccurrenceCount(s + t, words, |s| + q) == OccurrenceCount(t, words, q)
    decreases |t| - q
  {
    if q < |t| {
      OccurrenceCountShift(s, t, words, q + 1);
      if WordAt(t, words, q) {
        var m :| 0 <= m < |words| && OccursAt(t, q, words[m]);
        assert (s + t)[|s| + q..|s| + q + |words[m]|] == t[q..q + |words[m]|];
        assert OccursAt(s + t, |s| + q, words[m]);
      }
      if WordAt(s + t, words, |s| + q) {
        var m :| 0 <= m < |words| && OccursAt(s + t, |s| + q, words[m]);
        assert (s + t)[|s| + q..|s| + q + |words[m]|] == t[q..q + |words[m]|];
        assert OccursAt(t, q, words[m]);
      }
    }
  }

  const PreventiveWords: seq<string> := ["recommend", "suggest", "should", "prevent"]
  const ModificationWords: seq<string> := ["modify", "reduce", "increase", "change"]

  lemma PreventiveWordsDoNotOverlap()
    ensures NoOverlap(PreventiveWords)
  {
    var W := PreventiveWords;
    forall k, j, m | 0 <= k < |W| && 0 < j < |W[k]| && 0 <= m < |W|
      ensures DiffersEarly(W[k], j, W[m])
    {
      if k == 0 {} else if k == 1 {} else if k == 2 {} else {}
    }
  }

  lemma ModificationWordsDoNotOverlap()
    ensures NoOverlap(ModificationWords)
  {
    var W := ModificationWords;
    forall k, j, m | 0 <= k < |W| && 0 < j < |W[k]| && 0 <= m < |W|
      ensures DiffersEarly(W[k], j, W[m])
    {
      if k == 0 {} else if k == 1 {} else if k == 2 {} else {}
    }
  }

  /** `extractPreventiveActions`: `analysis.match(/recommend|suggest|should|prevent/gi)?.length || 0`. */
  function ExtractPreventiveActions(analysis: string): nat {
    KeywordScan(ToLower(analysis), PreventiveWords, 0)
  }

  /** `extractModifications`: `analysis.match(/modify|reduce|increase|change/gi)?.length || 0`. */
  function ExtractModifications(analysis: string): nat {
    KeywordScan(ToLower(analysis), ModificationWords, 0)
  }

  /**
   * Both counters count every case-insensitive keyword occurrence, are 0
   * exactly when no keyword occurs, and never drop when text is appended.
   */
  lemma KeywordCountersCountOccurrences(analysis: string, extra: string)
    ensures ExtractPreventiveActions(analysis) == OccurrenceCount(ToLower(analysis), PreventiveWords, 0)
    ensures ExtractModifications(analysis) == OccurrenceCount(ToLower(analysis), ModificationWords, 0)
    ensures ExtractPreventiveActions(analysis) == 0 <==> !ContainsAny(ToLower(analysis), PreventiveWords)
    ensures ExtractModifications(analysis) == 0 <==> !ContainsAny(ToLower(analysis), ModificationWords)
    ensures ExtractPreventiveActions(analysis + extra) >= ExtractPreventiveActions(analysis) + ExtractPreventiveActions(extra)
    ensures ExtractModifications(analysis + extra) >= ExtractModifications(analysis) + ExtractModifications(extra)
  {
    PreventiveWordsDoNotOverlap();
    ModificationWordsDoNotOverlap();
    ToLowerAppend(analysis, extra);
    var a, e := ToLower(analysis), ToLower(extra);
    forall words | words == PreventiveWords || words == ModificationWords
      ensures KeywordScan(a, words, 0) == OccurrenceCount(a, words, 0)
      ensures KeywordScan(e, words, 0) == OccurrenceCount(e, words, 0)
      ensures KeywordScan(a + e, words, 0) == OccurrenceCount(a + e, words, 0)
      ensures OccurrenceCount(a, words, 0) == 0 <==> !ContainsAny(a, words)
      ensures OccurrenceCount(a + e, words, 0) >= OccurrenceCount(a, words, 0) + OccurrenceCount(e, words, 0)
    {
      KeywordScanCountsOccurrences(a, words, 0);
      KeywordScanCountsOccurrences(e, words, 0);
      KeywordScanCountsOccurrences(a + e, words, 0);
      OccurrenceCountZeroIff(a, words, 0);
      NoWordAtIffNotContainsAny(a, words);
      OccurrenceCountSuperadditive(a, e, words, 0);
    }
  }

  // ===================== form corrections =====================

  const Bullet: char := '\U{2022}'

  /** `^` in multiline mode: the start of the text or just after a line terminator. */
  predicate AtLineStart(s: string, p: nat) {
    p == 0 || (p <= |s| && IsLineTerminator(s[p - 1]))
  }

  /** Length of the run of ASCII digits starting at `p`. */
  function DigitRun(s: string, p: nat): (n: nat)
    requires p <= |s|
    ensures p + n <= |s|
    ensures forall i :: p <= i < p + n ==> IsDigit(s[i])
    ensures p + n == |s| || !IsDigit(s[p + n])
    decreases |s| - p
  {
    if p < |s| && IsDigit(s[p]) then 1 + DigitRun(s, p + 1) else 0
  }

  /**
   * Length of the match of `/^\d+\.|^[-•]\s/m` at `p`, 0 when there is none:
   * digits then a dot, or a dash or bullet then one whitespace character.
   */
  function MarkerLength(s: string, p: nat): (n: nat)
    requires p <= |s|
    ensures p + n <= |s|
  {
    if !AtLineStart(s, p) then 0
    else
      var d := DigitRun(s, p);
      if d > 0 && p + d < |s| && s[p + d] == '.' then d + 1
      else if p + 1 < |s| && (s[p] == '-' || s[p] == Bullet) && IsSpace(JavaScript, s[p + 1]) then 2
      else 0
  }

  /** `analysis.match(/^\d+\.|^[-•]\s/gm)`'s length, scanning from `p`. */
  function CorrectionScan(s: string, p: nat): nat
    requires p <= |s|
    decreases |s| - p
  {
    if p == |s| then 0
    else
      var n := MarkerLength(s, p);
      if n > 0 then 1 + CorrectionScan(s, p + n) else CorrectionScan(s, p + 1)
  }

  /** The number of lines, from position `p` on, that open with a correction marker. */
  function MarkedLineCount(s: string, p: nat): nat
    requires p <= |s|
    decreases |s| - p
  {
    if p == |s| then 0
    else (if MarkerLength(s, p) > 0 then 1 else 0) + MarkedLineCount(s, p + 1)
  }

  /** `extractFormCorrections`. */
  function ExtractFormCorrections(analysis: string): nat {
    CorrectionScan(analysis, 0)
  }

  /** A marker's own characters are neither line terminators nor followed by a new line start inside it. */
  lemma NoLineStartInsideMarker(s: string, p: nat, q: nat)
    requires p <= |s| && p < q < p + MarkerLength(s, p)
    ensures !AtLineStart(s, q)
  {
    var d := DigitRun(s, p);
    if d > 0 && p + d < |s| && s[p + d] == '.' {
      assert IsDigit(s[q - 1]);
    }
  }

  lemma {:induction false} MarkedLineCountSkip(s: string, p: nat, q: nat)
    requires p <= q <= |s|
    requires forall i :: p <= i < q ==> MarkerLength(s, i) == 0
    ensures MarkedLineCount(s, p) == MarkedLineCount(s, q)
    decreases q - p
  {
    if p < q {
      MarkedLineCountSkip(s, p + 1, q);
    }
  }

  /** The regex scan counts exactly the lines that open with a numbered or bulleted marker. */
  lemma {:induction false} CorrectionScanCountsMarkedLines(s: string, p: nat)
    requires p <= |s|
    ensures CorrectionScan(s, p) == MarkedLineCount(s, p)
    decreases |s| - p
  {
    if p < |s| {
      var n := MarkerLength(s, p);
      if n > 0 {
        CorrectionScanCountsMarkedLines(s, p + n);
        forall i | p + 1 <= i < p + n ensures MarkerLength(s, i) == 0 {
          NoLineStartInsideMarker(s, p, i);
        }
        MarkedLineCountSkip(s, p + 1, p + n);
      } else {
        CorrectionScanCountsMarkedLines(s, p + 1);
      }
    }
  }

  /**
   * `extractFormCorrections` counts the lines opening with "<digits>." or
   * "-"/"•" plus whitespace, and is 0 exactly when no line does.
   */
  lemma FormCorrectionsCountMarkedLines(analysis: string)
    ensures ExtractFormCorrections(analysis) == MarkedLineCount(analysis, 0)
    ensures ExtractFormCorrections(analysis) == 0 <==>
      forall p :: 0 <= p < |analysis| ==> MarkerLength(analysis, p) == 0
  {
    CorrectionScanCountsMarkedLines(analysis, 0);
    MarkedLineCountZeroIff(analysis, 0);
  }

  lemma {:induction false} MarkedLineCountZeroIff(s: string, p: nat)
    requires p <= |s|
    ensures MarkedLineCount(s, p) == 0 <==> forall i :: p <= i < |s| ==> MarkerLength(s, i) == 0
    decreases |s| - p
  {
    if p < |s| {
      MarkedLineCountZeroIff(s, p + 1);
    }
  }
}
