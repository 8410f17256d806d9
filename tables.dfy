/** The record types flowing through the pipeline: raw deliveries and matches,
    the joined delivery, the derived training row written by the first stage
    and read by the second, and the ten-column feature row the classifier sees. */
module Tables {
  import opened Seqs

  /** One ball bowled (a row of the deliveries table). */
  datatype Delivery = Delivery(
    matchId: int,
    inning: int,
    over: int,
    ball: int,
    totalRuns: int,
    isWicket: int,
    battingTeam: string,
    bowlingTeam: string)

  /** One match (a row of the matches table); the venue cell may be empty. */
  datatype MatchRec = MatchRec(id: int, venue: Option<string>)

  /** A delivery after the left join: the venue of its match, if any. */
  datatype Merged = Merged(delivery: Delivery, venue: Option<string>)

  /** A derived training row. The rate columns are absent where the division
      would give an infinite or undefined value. */
  datatype Row = Row(
    delivery: Delivery,
    venue: Option<string>,
    currentScore: int,
    targetRuns: int,
    runsLeft: int,
    overBall: real,
    ballsLeft: int,
    wickets: int,
    crr: Option<real>,
    rrr: Option<real>,
    result: int)

  /** The classifier's input: ten columns, in this order. */
  datatype FeatureRow = FeatureRow(
    battingTeam: int,
    bowlingTeam: int,
    venue: int,
    overBall: real,
    currentScore: int,
    wickets: int,
    runsLeft: int,
    ballsLeft: int,
    crr: real,
    rrr: real)

  /** The column names of the feature table, in the order of FeatureRow. */
  const FeatureColumns: seq<string> := [
    "batting_team", "bowling_team", "venue", "over_ball",
    "current_score", "wickets",
    "runs_left", "balls_left", "crr", "rrr"
  ]
}
