/** The second pipeline stage, up to the classifier fit: fold historical
    franchise names into current ones, keep the rows whose teams and venue
    belong to the fixed vocabularies, fit the label encoders on the full
    vocabularies and build the ten-column feature table and its labels
    (ipl/train_model.py). */
module TrainModel {
  import opened Seqs
  import opened Tables
  import opened LabelEncoding

  /** The ten current franchises. */
  const Teams: seq<string> := [
    "Chennai Super Kings", "Mumbai Indians", "Royal Challengers Bangalore",
    "Delhi Capitals", "Kolkata Knight Riders", "Sunrisers Hyderabad",
    "Rajasthan Royals", "Punjab Kings", "Lucknow Super Giants",
    "Gujarat Titans"
  ]

  /** The ten current venues. */
  const Venues: seq<string> := [
    "Wankhede Stadium", "Eden Gardens", "M. Chinnaswamy Stadium",
    "Arun Jaitley Stadium", "MA Chidambaram Stadium", "Narendra Modi Stadium",
    "Rajiv Gandhi Intl. Stadium", "Sawai Mansingh Stadium",
    "Punjab Cricket Association Stadium", "Ekana Cricket Stadium"
  ]

  /** Historical franchise name to the current name it is folded into. */
  const TeamRemap: map<string, string> := map[
    "Kings XI Punjab" := "Punjab Kings",
    "Delhi Daredevils" := "Delhi Capitals",
    "Deccan Chargers" := "Sunrisers Hyderabad",
    "Rising Pune Supergiant" := "Chennai Super Kings",
    "Rising Pune Supergiants" := "Chennai Super Kings"
  ]

  /** A team name after the remap: the table's entry, or the name itself. */
  function Canonical(team: string): (r: string)
    ensures team !in TeamRemap ==> r == team
    ensures team in TeamRemap ==> r == TeamRemap[team] && r in Teams
    ensures r !in TeamRemap
  {
    RemapTargetsAreCurrent();
    if team in TeamRemap then TeamRemap[team] else team
  }

  lemma VocabulariesDistinct()
    ensures |Teams| == 10 && Distinct(Teams)
    ensures |Venues| == 10 && Distinct(Venues)
  {
  }

  /** Every replacement is one of the ten current teams and is not itself a historical name. */
  lemma RemapTargetsAreCurrent()
    ensures forall h :: h in TeamRemap ==> TeamRemap[h] in Teams && TeamRemap[h] !in TeamRemap
  {
    assert TeamRemap.Keys == {"Kings XI Punjab", "Delhi Daredevils", "Deccan Chargers",
                              "Rising Pune Supergiant", "Rising Pune Supergiants"};
    assert TeamRemap.Values == {Teams[7], Teams[3], Teams[5], Teams[0]};
    forall t | t in TeamRemap.Values ensures t in Teams && t !in TeamRemap {
      assert t[0] != 'K' && t[0] != 'R' && (t[0] == 'D' ==> t[1] == 'e' && t[2] == 'l' && t[3] == 'h' && t[4] == 'i' && t[5] == ' ' && t[6] == 'C');
    }
  }

  /** The remap changes exactly the five historical names. */
  lemma {:induction false} RemapChangesExactlyHistorical(team: string)
    ensures Canonical(team) != team <==> team in TeamRemap
    ensures team in TeamRemap ==> Canonical(team) == TeamRemap[team]
  {
    RemapTargetsAreCurrent();
  }

  /** Remapping twice is remapping once. */
  lemma {:induction false} RemapIdempotent(team: string)
    ensures Canonical(Canonical(team)) == Canonical(team)
  {
    RemapTargetsAreCurrent();
  }

  /** The remap applied to the batting-team column. */
  function RemapBatting(r: Row): Row
  {
    r.(delivery := r.delivery.(battingTeam := Canonical(r.delivery.battingTeam)))
  }

  /** The remap applied to the bowling-team column. */
  function RemapBowling(r: Row): Row
  {
    r.(delivery := r.delivery.(bowlingTeam := Canonical(r.delivery.bowlingTeam)))
  }

  /** Both team columns remapped. */
  function CanonicalRow(r: Row): Row
  {
    RemapBowling(RemapBatting(r))
  }

  /** The two column remaps are independent of each other: either order gives
      the same row, each column is remapped from its own old value only, and no
      other field changes. */
  lemma {:induction false} RemapColumnsIndependent(r: Row)
    ensures RemapBowling(RemapBatting(r)) == RemapBatting(RemapBowling(r))
    ensures CanonicalRow(r).delivery.battingTeam == Canonical(r.delivery.battingTeam)
    ensures CanonicalRow(r).delivery.bowlingTeam == Canonical(r.delivery.bowlingTeam)
    ensures CanonicalRow(r).delivery.(battingTeam := r.delivery.battingTeam, bowlingTeam := r.delivery.bowlingTeam) == r.delivery
    ensures CanonicalRow(r).(delivery := r.delivery) == r
  {
  }

  predicate TeamsKnown(r: Row)
  {
    r.delivery.battingTeam in Teams && r.delivery.bowlingTeam in Teams
  }

  /** A missing venue is never in the vocabulary. */
  predicate VenueKnown(r: Row)
  {
    r.venue.Some? && r.venue.value in Venues
  }

  predicate HasVenue(r: Row) { r.venue.Some? }

  /** The remapped table: both team columns folded, row count and order unchanged. */
  function Canonicalised(data: seq<Row>): (r: seq<Row>)
    ensures |r| == |data|
    ensures forall i :: 0 <= i < |data| ==> r[i] == CanonicalRow(data[i])
  {
    seq(|data|, i requires 0 <= i < |data| => CanonicalRow(data[i]))
  }

  /** The rows the stage trains on: remapped, then filtered on the team
      vocabulary, then on the venue vocabulary. */
  function Retained(data: seq<Row>): (r: seq<Row>)
    ensures |r| <= |data|
    ensures forall i :: 0 <= i < |r| ==> TeamsKnown(r[i]) && VenueKnown(r[i])
  {
    Filter(Filter(Canonicalised(data), TeamsKnown), VenueKnown)
  }

  /** What survives: exactly the remapped rows whose two teams and venue are in
      the vocabularies, each otherwise unchanged. */
  lemma {:induction false} RetainedSpec(data: seq<Row>)
    ensures forall r :: r in Retained(data) ==> TeamsKnown(r) && VenueKnown(r)
    ensures forall r :: r in Retained(data) ==> exists i :: 0 <= i < |data| && r == CanonicalRow(data[i])
    ensures forall i :: 0 <= i < |data| && TeamsKnown(CanonicalRow(data[i])) && VenueKnown(CanonicalRow(data[i])) ==>
              CanonicalRow(data[i]) in Retained(data)
  {
    var c := Canonicalised(data);
    var t := Filter(c, TeamsKnown);
    forall r | r in Retained(data)
      ensures TeamsKnown(r) && VenueKnown(r)
      ensures exists i :: 0 <= i < |data| && r == CanonicalRow(data[i])
    {
      var k :| 0 <= k < |Retained(data)| && Retained(data)[k] == r;
      assert r in t;
      var m :| 0 <= m < |t| && t[m] == r;
      assert r in c;
      var i :| 0 <= i < |c| && c[i] == r;
      assert r == CanonicalRow(data[i]);
    }
    forall i | 0 <= i < |data| && TeamsKnown(CanonicalRow(data[i])) && VenueKnown(CanonicalRow(data[i]))
      ensures CanonicalRow(data[i]) in Retained(data)
    {
      assert c[i] == CanonicalRow(data[i]);
      assert c[i] in t;
      var m :| 0 <= m < |t| && t[m] == c[i];
    }
  }

  /** Survivors keep their relative order. */
  lemma {:induction false} RetainedConcat(a: seq<Row>, b: seq<Row>)
    ensures Retained(a + b) == Retained(a) + Retained(b)
  {
    assert Canonicalised(a + b) == Canonicalised(a) + Canonicalised(b);
    FilterConcat(Canonicalised(a), Canonicalised(b), TeamsKnown);
    FilterConcat(Filter(Canonicalised(a), TeamsKnown), Filter(Canonicalised(b), TeamsKnown), VenueKnown);
  }

  /** The later `dropna` on the venue removes nothing: the venue filter has
      already dropped every row without one. */
  lemma {:induction false} DropMissingVenueRemovesNothing(data: seq<Row>)
    ensures Filter(Retained(data), HasVenue) == Retained(data)
  {
    RetainedSpec(data);
    FilterKeepsAll(Retained(data), HasVenue);
  }

  /** An encoder fitted on the team list gives every team a distinct code in
      0..9 that decodes back to it; likewise for the venue list. */
  lemma {:induction false} EncodersCoverVocabularies(teamEncoder: LabelEncoder, venueEncoder: LabelEncoder)
    requires SortedClassesOf(teamEncoder.classes, Teams)
    requires SortedClassesOf(venueEncoder.classes, Venues)
    ensures |teamEncoder.classes| == 10 && |venueEncoder.classes| == 10
    ensures forall t :: t in Teams ==>
              teamEncoder.Encode(t).Some? && teamEncoder.Encode(t).value < 10 &&
              teamEncoder.Decode(teamEncoder.Encode(t).value) == Some(t)
    ensures forall t, u :: t in Teams && u in Teams && t != u ==> teamEncoder.Encode(t) != teamEncoder.Encode(u)
    ensures forall v :: v in Venues ==>
              venueEncoder.Encode(v).Some? && venueEncoder.Encode(v).value < 10 &&
              venueEncoder.Decode(venueEncoder.Encode(v).value) == Some(v)
    ensures forall v, w :: v in Venues && w in Venues && v != w ==> venueEncoder.Encode(v) != venueEncoder.Encode(w)
  {
    VocabulariesDistinct();
    FittedOnVocabulary(teamEncoder, Teams);
    FittedOnVocabulary(venueEncoder, Venues);
  }

  /** A historical name, remapped and then encoded, gets the code of its
      current name encoded directly. */
  lemma {:induction false} HistoricalNameSameCode(teamEncoder: LabelEncoder, historical: string)
    requires SortedClassesOf(teamEncoder.classes, Teams)
    requires historical in TeamRemap
    ensures teamEncoder.Encode(Canonical(historical)).Some?
    ensures teamEncoder.Encode(Canonical(historical)) == teamEncoder.Encode(TeamRemap[historical])
  {
    RemapTargetsAreCurrent();
  }

  /** Remapping and filtering leave the rate columns alone. */
  lemma {:induction false} RetainedKeepsRates(data: seq<Row>)
    requires forall i :: 0 <= i < |data| ==> data[i].crr.Some? && data[i].rrr.Some?
    ensures forall i :: 0 <= i < |Retained(data)| ==>
              Retained(data)[i].crr.Some? && Retained(data)[i].rrr.Some? &&
              TeamsKnown(Retained(data)[i]) && VenueKnown(Retained(data)[i])
  {
    RetainedSpec(data);
    forall i | 0 <= i < |Retained(data)|
      ensures Retained(data)[i].crr.Some? && Retained(data)[i].rrr.Some?
    {
      var r := Retained(data)[i];
      assert r in Retained(data);
      var j :| 0 <= j < |data| && r == CanonicalRow(data[j]);
    }
  }

  /** The feature columns of a row, given its three encoded categories. */
  function FeatureRowOf(battingCode: int, bowlingCode: int, venueCode: int, r: Row): (f: FeatureRow)
    requires r.crr.Some? && r.rrr.Some?
    ensures f.battingTeam == battingCode && f.bowlingTeam == bowlingCode && f.venue == venueCode
    ensures f.overBall == r.overBall && f.currentScore == r.currentScore && f.wickets == r.wickets
    ensures f.runsLeft == r.runsLeft && f.ballsLeft == r.ballsLeft
    ensures f.crr == r.crr.value && f.rrr == r.rrr.value
  {
    FeatureRow(battingCode, bowlingCode, venueCode, r.overBall, r.currentScore, r.wickets,
               r.runsLeft, r.ballsLeft, r.crr.value, r.rrr.value)
  }

  /** The ten feature columns of every row, in row order. */
  function FeatureTable(df: seq<Row>, batting: seq<nat>, bowling: seq<nat>, venues: seq<nat>): (X: seq<FeatureRow>)
    requires |batting| == |df| && |bowling| == |df| && |venues| == |df|
    requires forall i :: 0 <= i < |df| ==> df[i].crr.Some? && df[i].rrr.Some?
    ensures |X| == |df|
    ensures forall i :: 0 <= i < |df| ==> X[i] == FeatureRowOf(batting[i], bowling[i], venues[i], df[i])
  {
    seq(|df|, i requires 0 <= i < |df| => FeatureRowOf(batting[i], bowling[i], venues[i], df[i]))
  }

  /** The label column. */
  function LabelColumn(df: seq<Row>): (y: seq<int>)
    ensures |y| == |df| && forall i :: 0 <= i < |df| ==> y[i] == df[i].result
  {
    seq(|df|, i requires 0 <= i < |df| => df[i].result)
  }

  function BattingColumn(df: seq<Row>): (r: seq<string>)
    ensures |r| == |df| && forall i :: 0 <= i < |df| ==> r[i] == df[i].delivery.battingTeam
  {
    seq(|df|, i requires 0 <= i < |df| => df[i].delivery.battingTeam)
  }

  function BowlingColumn(df: seq<Row>): (r: seq<string>)
    ensures |r| == |df| && forall i :: 0 <= i < |df| ==> r[i] == df[i].delivery.bowlingTeam
  {
    seq(|df|, i requires 0 <= i < |df| => df[i].delivery.bowlingTeam)
  }

  function VenueColumn(df: seq<Row>): (r: seq<string>)
    requires forall i :: 0 <= i < |df| ==> df[i].venue.Some?
    ensures |r| == |df| && forall i :: 0 <= i < |df| ==> Some(r[i]) == df[i].venue
  {
    seq(|df|, i requires 0 <= i < |df| && df[i].venue.Some? => df[i].venue.value)
  }

  /** The feature row of one table row, encoded with the two encoders; None
      when a category is unknown or a rate is missing. */
  function EncodeRow(teamEncoder: LabelEncoder, venueEncoder: LabelEncoder, r: Row): (x: Option<FeatureRow>)
    reads teamEncoder, venueEncoder
    ensures x.Some? <==> r.delivery.battingTeam in teamEncoder.classes &&
                         r.delivery.bowlingTeam in teamEncoder.classes &&
                         r.venue.Some? && r.venue.value in venueEncoder.classes &&
                         r.crr.Some? && r.rrr.Some?
    ensures x.Some? ==>
              teamEncoder.Decode(x.value.battingTeam) == Some(r.delivery.battingTeam) &&
              teamEncoder.Decode(x.value.bowlingTeam) == Some(r.delivery.bowlingTeam) &&
              venueEncoder.Decode(x.value.venue) == r.venue
    ensures x.Some? ==> x.value == FeatureRowOf(x.value.battingTeam, x.value.bowlingTeam, x.value.venue, r)
  {
    if r.venue.None? || r.crr.None? || r.rrr.None? then None
    else match (teamEncoder.Encode(r.delivery.battingTeam), teamEncoder.Encode(r.delivery.bowlingTeam),
                venueEncoder.Encode(r.venue.value))
      case (Some(b), Some(w), Some(v)) => Some(FeatureRowOf(b, w, v, r))
      case _ => None
  }

  /** Every retained row's categories are classes of encoders fitted on the
      full vocabularies, so the three columns transform without an unknown
      label, and the row encodes. */
  lemma {:induction false} RetainedIsEncodable(data: seq<Row>, teamEncoder: LabelEncoder, venueEncoder: LabelEncoder)
    requires forall i :: 0 <= i < |data| ==> data[i].crr.Some? && data[i].rrr.Some?
    requires forall t :: t in Teams ==> t in teamEncoder.classes
    requires forall v :: v in Venues ==> v in venueEncoder.classes
    ensures forall i :: 0 <= i < |Retained(data)| ==> Retained(data)[i].venue.Some?
    ensures forall i :: 0 <= i < |Retained(data)| ==> BattingColumn(Retained(data))[i] in teamEncoder.classes
    ensures forall i :: 0 <= i < |Retained(data)| ==> BowlingColumn(Retained(data))[i] in teamEncoder.classes
    ensures forall i :: 0 <= i < |Retained(data)| ==> VenueColumn(Retained(data))[i] in venueEncoder.classes
    ensures forall i :: 0 <= i < |Retained(data)| ==>
              EncodeRow(teamEncoder, venueEncoder, Retained(data)[i]).Some?
  {
    RetainedKeepsRates(data);
  }

  /** The table built from the transformed columns is the row-by-row encoding. */
  lemma {:induction false} FeatureTableEncodes(teamEncoder: LabelEncoder, venueEncoder: LabelEncoder, df: seq<Row>,
                                               batting: seq<nat>, bowling: seq<nat>, venues: seq<nat>)
    requires forall i :: 0 <= i < |df| ==> df[i].venue.Some? && df[i].crr.Some? && df[i].rrr.Some?
    requires |batting| == |df| && |bowling| == |df| && |venues| == |df|
    requires forall i :: 0 <= i < |df| ==> teamEncoder.Encode(BattingColumn(df)[i]) == Some(batting[i])
    requires forall i :: 0 <= i < |df| ==> teamEncoder.Encode(BowlingColumn(df)[i]) == Some(bowling[i])
    requires forall i :: 0 <= i < |df| ==> venueEncoder.Encode(VenueColumn(df)[i]) == Some(venues[i])
    ensures forall i :: 0 <= i < |df| ==>
              EncodeRow(teamEncoder, venueEncoder, df[i]) == Some(FeatureTable(df, batting, bowling, venues)[i])
  {
    var X := FeatureTable(df, batting, bowling, venues);
    forall i | 0 <= i < |df|
      ensures EncodeRow(teamEncoder, venueEncoder, df[i]) == Some(X[i])
    {
      assert BattingColumn(df)[i] == df[i].delivery.battingTeam;
      assert BowlingColumn(df)[i] == df[i].delivery.bowlingTeam;
      assert Some(VenueColumn(df)[i]) == df[i].venue;
    }
  }

  /** The stage up to fitting the classifier. The rows are those of Retained;
      the encoders are fitted on the full vocabularies; every retained row is
      encoded without an unknown label; X holds the encoded feature row and y
      the label of each row. The rate columns are present in every input row
      because the first stage drops rows where they are not. */
  method PrepareTrainingSet(data: seq<Row>)
    returns (teamEncoder: LabelEncoder, venueEncoder: LabelEncoder, X: seq<FeatureRow>, y: seq<int>)
    requires forall i :: 0 <= i < |data| ==> data[i].crr.Some? && data[i].rrr.Some?
    ensures fresh(teamEncoder) && fresh(venueEncoder)
    ensures SortedClassesOf(teamEncoder.classes, Teams) && SortedClassesOf(venueEncoder.classes, Venues)
    ensures |X| == |Retained(data)| && |y| == |Retained(data)|
    ensures forall i :: 0 <= i < |Retained(data)| ==>
              EncodeRow(teamEncoder, venueEncoder, Retained(data)[i]) == Some(X[i])
    ensures forall i :: 0 <= i < |Retained(data)| ==> y[i] == Retained(data)[i].result
  {
    var df := Canonicalised(data);
    df := Filter(Filter(df, TeamsKnown), VenueKnown);
    DropMissingVenueRemovesNothing(data);
    df := Filter(df, HasVenue);

    teamEncoder := new LabelEncoder();
    venueEncoder := new LabelEncoder();
    teamEncoder.Fit(Teams);
    venueEncoder.Fit(Venues);

    RetainedIsEncodable(data, teamEncoder, venueEncoder);
    RetainedKeepsRates(data);
    var batting := teamEncoder.Transform(BattingColumn(df));
    var bowling := teamEncoder.Transform(BowlingColumn(df));
    var venues := venueEncoder.Transform(VenueColumn(df));
    FeatureTableEncodes(teamEncoder, venueEncoder, df, batting.value, bowling.value, venues.value);
    X := FeatureTable(df, batting.value, bowling.value, venues.value);
    y := LabelColumn(df);
  }
}
