/** The inference step of the web app: from the selected teams and venue and
    the entered match state (overs completed, runs, wickets, target) it derives
    the remaining runs and balls and the two run rates, encodes the selections
    with the fitted encoders, assembles the ten-field input row, and either
    rejects the state with a warning or reports the classifier's two win
    percentages. Overs are counted in tenths (the slider steps by 0.1). */
module App {
  import opened Seqs
  import opened Tables
  import opened LabelEncoding

  /** Everything the user enters. `overs10` is the overs slider times ten. */
  datatype Inputs = Inputs(
    battingTeam: string,
    bowlingTeam: string,
    venue: string,
    overs10: int,
    runs: int,
    wickets: int,
    target: int)

  /** Bounds of the input widgets: overs 3.0 .. 20.0, runs 0 .. 300,
      wickets 0 .. 10, target 1 .. 300. */
  predicate InWidgetRange(inp: Inputs)
  {
    30 <= inp.overs10 <= 200 && 0 <= inp.runs <= 300 &&
    0 <= inp.wickets <= 10 && 1 <= inp.target <= 300
  }

  // ---------------------------------------------------------------------
  // Derived quantities
  // ---------------------------------------------------------------------

  /** Runs still needed to reach the target; negative once it is passed. */
  function RemainingRuns(target: int, runs: int): (r: int)
    ensures r >= 0 <==> runs <= target
    ensures r == 0 <==> runs == target
    ensures r + runs == target
  {
    target - runs
  }

  /** `int(n / 10)`: the quotient by ten truncated toward zero. */
  function TruncDiv10(n: int): (q: int)
    ensures n >= 0 ==> 0 <= q && q * 10 <= n < q * 10 + 10
    ensures n < 0 ==> q <= 0 && q * 10 - 10 < n <= q * 10
  {
    if n >= 0 then n / 10 else -((-n) / 10)
  }

  /** Balls left in the 20-over innings: `(20 - overs) * 6` truncated toward
      zero, i.e. `(200 - overs10) * 6 / 10` truncated. */
  function RemainingBalls(overs10: int): (r: int)
    ensures overs10 <= 200 ==> 0 <= r && r * 10 <= (200 - overs10) * 6 < r * 10 + 10
    ensures overs10 > 200 ==> r <= 0 && r * 10 - 10 < (200 - overs10) * 6 <= r * 10
    ensures 30 <= overs10 <= 200 ==> 0 <= r <= 102
    ensures r == 0 <==> 199 <= overs10 <= 201
  {
    TruncDiv10((200 - overs10) * 6)
  }

  /** Current run rate: runs per over completed, or 0 before any over. */
  function Crr(runs: int, overs10: int): (r: real)
    ensures overs10 > 0 ==> r * (overs10 as real / 10.0) == runs as real
    ensures overs10 <= 0 ==> r == 0.0
  {
    if overs10 > 0 then runs as real / (overs10 as real / 10.0) else 0.0
  }

  /** Required run rate: remaining runs per remaining over, or 0 when no
      balls are left. */
  function Rrr(remainingRuns: int, remainingBalls: int): (r: real)
    ensures remainingBalls > 0 ==> r * (remainingBalls as real / 6.0) == remainingRuns as real
    ensures remainingBalls <= 0 ==> r == 0.0
  {
    if remainingBalls > 0 then remainingRuns as real / (remainingBalls as real / 6.0) else 0.0
  }

  /** At 20 overs no balls are left, so the required rate is 0. */
  lemma {:induction false} RrrZeroAtTwentyOvers(target: int, runs: int)
    ensures RemainingBalls(200) == 0
    ensures Rrr(RemainingRuns(target, runs), RemainingBalls(200)) == 0.0
  {
  }

  /** The required rate is positive exactly when runs are still needed and
      balls remain, and zero once the target is reached. */
  lemma {:induction false} RrrSign(remainingRuns: int, remainingBalls: int)
    requires remainingBalls > 0
    ensures Rrr(remainingRuns, remainingBalls) > 0.0 <==> remainingRuns > 0
    ensures Rrr(remainingRuns, remainingBalls) == 0.0 <==> remainingRuns == 0
  {
    var r := Rrr(remainingRuns, remainingBalls);
    var o := remainingBalls as real / 6.0;
    assert r * o == remainingRuns as real;
    if r > 0.0 {
      assert r * o > 0.0;
    }
    if r < 0.0 {
      assert r * o < 0.0;
    }
  }

  // ---------------------------------------------------------------------
  // Validation guard
  // ---------------------------------------------------------------------

  /** The match state the app refuses to predict for. */
  predicate Invalid(inp: Inputs)
    ensures !Invalid(inp) <==> RemainingRuns(inp.target, inp.runs) >= 0 && inp.overs10 <= 200 && inp.wickets <= 10
    ensures !Invalid(inp) ==> RemainingBalls(inp.overs10) >= 0
  {
    inp.overs10 > 200 || inp.runs > inp.target || inp.wickets > 10
  }

  /** A state that passes the guard has a non-negative run deficit and a
      non-negative ball count. */
  lemma {:induction false} ValidStateHasNonNegativeRemainders(inp: Inputs)
    requires !Invalid(inp)
    ensures RemainingRuns(inp.target, inp.runs) >= 0
    ensures RemainingBalls(inp.overs10) >= 0
    ensures Rrr(RemainingRuns(inp.target, inp.runs), RemainingBalls(inp.overs10)) >= 0.0
  {
    var b := RemainingBalls(inp.overs10);
    if b > 0 {
      RrrSign(RemainingRuns(inp.target, inp.runs), b);
    }
  }

  /** Within the widget ranges, only a run total above the target can trip
      the guard: the overs and wickets widgets cannot exceed their limits. */
  lemma {:induction false} WidgetsOnlyTripTheRunCheck(inp: Inputs)
    requires InWidgetRange(inp)
    ensures Invalid(inp) <==> inp.runs > inp.target
  {
  }

  // ---------------------------------------------------------------------
  // Team choices and encoding of the selections
  // ---------------------------------------------------------------------

  /** The bowling-team choices: every team except the batting team, in order. */
  function BowlingChoices(teams: seq<string>, battingTeam: string): (r: seq<string>)
    ensures forall t :: t in r <==> t in teams && t != battingTeam
  {
    var r := Filter(teams, t => t != battingTeam);
    assert forall t :: t in teams && t != battingTeam ==> t in r by {
      forall t | t in teams && t != battingTeam ensures t in r {
        var i :| 0 <= i < |teams| && teams[i] == t;
      }
    }
    r
  }

  /** A bowling team picked from the choices is a known team different from
      the batting team. */
  lemma {:induction false} SelectedTeamsDiffer(teams: seq<string>, battingTeam: string, bowlingTeam: string)
    requires bowlingTeam in BowlingChoices(teams, battingTeam)
    ensures bowlingTeam != battingTeam && bowlingTeam in teams
  {
  }

  /** The selections are drawn from the encoders' own classes. */
  predicate SelectedFromClasses(teamEncoder: LabelEncoder, venueEncoder: LabelEncoder, inp: Inputs)
    reads teamEncoder, venueEncoder
  {
    inp.battingTeam in teamEncoder.classes &&
    inp.bowlingTeam in BowlingChoices(teamEncoder.classes, inp.battingTeam) &&
    inp.venue in venueEncoder.classes
  }

  // ---------------------------------------------------------------------
  // The input row
  // ---------------------------------------------------------------------

  /** The column names of the input row, in the order the row is built. */
  const InputColumns: seq<string> := [
    "batting_team", "bowling_team", "venue", "over_ball",
    "current_score", "wickets",
    "runs_left", "balls_left", "crr", "rrr"
  ]

  /** The two column-name lists written out in ipl/app.py and ipl/train_model.py
      agree. This compares the lists only: that the classifier receives its
      training columns in training order holds because both stages build the
      same FeatureRow datatype, whose field order is FeatureColumns. */
  lemma InputColumnsMatchTraining()
    ensures InputColumns == FeatureColumns
    ensures |InputColumns| == 10
  {
  }

  /** The ten-field input row for given codes: the overs value itself is
      the `over_ball` column. */
  function InputRow(battingCode: nat, bowlingCode: nat, venueCode: nat, inp: Inputs): (x: FeatureRow)
    ensures x.battingTeam == battingCode && x.bowlingTeam == bowlingCode && x.venue == venueCode
    ensures x.overBall * 10.0 == inp.overs10 as real
    ensures x.currentScore == inp.runs && x.wickets == inp.wickets
    ensures x.runsLeft + inp.runs == inp.target
    ensures x.ballsLeft == RemainingBalls(inp.overs10)
    ensures x.crr == Crr(inp.runs, inp.overs10)
    ensures x.rrr == Rrr(x.runsLeft, x.ballsLeft)
  {
    var remainingRuns := RemainingRuns(inp.target, inp.runs);
    var remainingBalls := RemainingBalls(inp.overs10);
    FeatureRow(battingCode, bowlingCode, venueCode, inp.overs10 as real / 10.0,
               inp.runs, inp.wickets, remainingRuns, remainingBalls,
               Crr(inp.runs, inp.overs10), Rrr(remainingRuns, remainingBalls))
  }

  /** Encode the three selections and build the input row; None when an
      encoder does not know a selected name (the transform would raise). */
  function EncodeInputs(teamEncoder: LabelEncoder, venueEncoder: LabelEncoder, inp: Inputs): (r: Option<FeatureRow>)
    reads teamEncoder, venueEncoder
    ensures r.Some? <==> inp.battingTeam in teamEncoder.classes &&
                         inp.bowlingTeam in teamEncoder.classes &&
                         inp.venue in venueEncoder.classes
    ensures r.Some? ==>
              teamEncoder.Decode(r.value.battingTeam) == Some(inp.battingTeam) &&
              teamEncoder.Decode(r.value.bowlingTeam) == Some(inp.bowlingTeam) &&
              venueEncoder.Decode(r.value.venue) == Some(inp.venue)
    ensures r.Some? ==>
              r.value == InputRow(teamEncoder.Encode(inp.battingTeam).value,
                                  teamEncoder.Encode(inp.bowlingTeam).value,
                                  venueEncoder.Encode(inp.venue).value, inp)
  {
    match (teamEncoder.Encode(inp.battingTeam), teamEncoder.Encode(inp.bowlingTeam),
           venueEncoder.Encode(inp.venue))
    case (Some(b), Some(w), Some(v)) => Some(InputRow(b, w, v, inp))
    case _ => None
  }

  /** Selections offered by the widgets always encode, and the two teams get
      different codes. */
  lemma {:induction false} SelectionsAlwaysEncode(teamEncoder: LabelEncoder, venueEncoder: LabelEncoder, inp: Inputs)
    requires SelectedFromClasses(teamEncoder, venueEncoder, inp)
    ensures EncodeInputs(teamEncoder, venueEncoder, inp).Some?
    ensures EncodeInputs(teamEncoder, venueEncoder, inp).value.battingTeam !=
            EncodeInputs(teamEncoder, venueEncoder, inp).value.bowlingTeam
  {
    SelectedTeamsDiffer(teamEncoder.classes, inp.battingTeam, inp.bowlingTeam);
  }

  // ---------------------------------------------------------------------
  // Prediction
  // ---------------------------------------------------------------------

  /** What the app shows: nothing (an encoding failure stops it before the
      button), a warning for an invalid state, or the two win percentages. */
  datatype Outcome =
    | EncodingFailed
    | Warning
    | Prediction(battingPct: real, bowlingPct: real)

  /** The result of pressing the predict button. `proba` stands for the
      classifier: it maps an input row to the probabilities of class 0
      (batting side loses) and class 1 (batting side wins). */
  function Predict(teamEncoder: LabelEncoder, venueEncoder: LabelEncoder, inp: Inputs,
                   proba: FeatureRow -> (real, real)): (r: Outcome)
    reads teamEncoder, venueEncoder
    ensures r.EncodingFailed? <==> EncodeInputs(teamEncoder, venueEncoder, inp).None?
    ensures r.Warning? <==> EncodeInputs(teamEncoder, venueEncoder, inp).Some? && Invalid(inp)
    ensures r.Prediction? ==>
              var p := proba(EncodeInputs(teamEncoder, venueEncoder, inp).value);
              r.battingPct == p.1 * 100.0 && r.bowlingPct == p.0 * 100.0
  {
    match EncodeInputs(teamEncoder, venueEncoder, inp)
    case None => EncodingFailed
    case Some(x) =>
      if Invalid(inp) then Warning
      else
        var p := proba(x);
        Prediction(p.1 * 100.0, p.0 * 100.0)
  }

  /** For selections made through the widgets the app never fails to encode:
      it warns exactly on invalid states and predicts otherwise; with a
      probability pair summing to one the percentages sum to 100. */
  lemma {:induction false} PredictOnSelections(teamEncoder: LabelEncoder, venueEncoder: LabelEncoder, inp: Inputs,
                                               proba: FeatureRow -> (real, real))
    requires SelectedFromClasses(teamEncoder, venueEncoder, inp)
    requires forall x :: proba(x).0 + proba(x).1 == 1.0
    ensures Predict(teamEncoder, venueEncoder, inp, proba).Warning? <==> Invalid(inp)
    ensures Predict(teamEncoder, venueEncoder, inp, proba).Prediction? <==> !Invalid(inp)
    ensures Predict(teamEncoder, venueEncoder, inp, proba).Prediction? ==>
              Predict(teamEncoder, venueEncoder, inp, proba).battingPct +
              Predict(teamEncoder, venueEncoder, inp, proba).bowlingPct == 100.0
  {
    SelectionsAlwaysEncode(teamEncoder, venueEncoder, inp);
    var x := EncodeInputs(teamEncoder, venueEncoder, inp).value;
    assert proba(x).0 + proba(x).1 == 1.0;
  }
}
