/** The first pipeline stage: turn ball-by-ball deliveries and match metadata
    into labelled training rows (ipl/generate_training_data.py). */
module TrainingData {
  import opened Seqs
  import opened Tables

  /** The fixed target every row is measured against (not the real first-innings total). */
  const TargetRuns: int := 200
  /** Balls in a full twenty-over innings. */
  const BallsPerInnings: int := 120

  // ---------------------------------------------------------------------
  // Join and venue drop
  // ---------------------------------------------------------------------

  /** No two matches share an id (so the left join never duplicates a delivery). */
  predicate UniqueIds(ms: seq<MatchRec>)
  {
    forall i, j :: 0 <= i < j < |ms| ==> ms[i].id != ms[j].id
  }

  /** The venue the join attaches for match id `id`; None when no match has
      that id or when that match's venue is empty. */
  function VenueOf(ms: seq<MatchRec>, id: int): (r: Option<string>)
    ensures r.Some? ==> exists j :: 0 <= j < |ms| && ms[j].id == id && ms[j].venue == r
  {
    if ms == [] then None
    else if ms[0].id == id then ms[0].venue
    else VenueOf(ms[1..], id)
  }

  /** With unique ids, a delivery of match `ms[j]` picks up exactly that match's venue. */
  lemma {:induction false} VenueOfFound(ms: seq<MatchRec>, j: int)
    requires UniqueIds(ms)
    requires 0 <= j < |ms|
    ensures VenueOf(ms, ms[j].id) == ms[j].venue
  {
    if j > 0 {
      assert ms[0].id != ms[j].id;
      assert ms[1..][j - 1] == ms[j];
      VenueOfFound(ms[1..], j - 1);
    }
  }

  /** A delivery whose match id is not in the matches table gets no venue. */
  lemma {:induction false} VenueOfAbsent(ms: seq<MatchRec>, id: int)
    requires forall j :: 0 <= j < |ms| ==> ms[j].id != id
    ensures VenueOf(ms, id) == None
  {
    if ms != [] {
      assert forall j :: 0 <= j < |ms[1..]| ==> ms[1..][j] == ms[j + 1];
      VenueOfAbsent(ms[1..], id);
    }
  }

  /** Left join of deliveries to matches on match id: every delivery is kept,
      in order, with the venue of its match attached. */
  function LeftJoin(ds: seq<Delivery>, ms: seq<MatchRec>): (r: seq<Merged>)
    requires UniqueIds(ms)
    ensures |r| == |ds|
    ensures forall i :: 0 <= i < |ds| ==>
              r[i].delivery == ds[i] && r[i].venue == VenueOf(ms, ds[i].matchId)
  {
    if ds == [] then []
    else [Merged(ds[0], VenueOf(ms, ds[0].matchId))] + LeftJoin(ds[1..], ms)
  }

  predicate HasVenue(m: Merged) { m.venue.Some? }

  /** The joined rows with a resolved venue, in their original order. */
  function Kept(ds: seq<Delivery>, ms: seq<MatchRec>): (r: seq<Merged>)
    requires UniqueIds(ms)
    ensures |r| <= |ds|
    ensures forall i :: 0 <= i < |r| ==> r[i].venue.Some? && r[i].venue == VenueOf(ms, r[i].delivery.matchId)
  {
    Filter(LeftJoin(ds, ms), HasVenue)
  }

  /** After the join and the drop, a delivery survives exactly when its match
      is known and has a venue, and every survivor carries its match's venue. */
  lemma {:induction false} KeptSpec(ds: seq<Delivery>, ms: seq<MatchRec>)
    requires UniqueIds(ms)
    ensures forall i :: 0 <= i < |ds| && VenueOf(ms, ds[i].matchId).Some? ==>
              Merged(ds[i], VenueOf(ms, ds[i].matchId)) in Kept(ds, ms)
    ensures forall m :: m in Kept(ds, ms) ==>
              m.delivery in ds && m.venue.Some? && m.venue == VenueOf(ms, m.delivery.matchId)
  {
    var j := LeftJoin(ds, ms);
    forall i | 0 <= i < |ds| && VenueOf(ms, ds[i].matchId).Some?
      ensures Merged(ds[i], VenueOf(ms, ds[i].matchId)) in Kept(ds, ms)
    {
      assert j[i] == Merged(ds[i], VenueOf(ms, ds[i].matchId));
      assert HasVenue(j[i]);
    }
    forall m | m in Kept(ds, ms)
      ensures m.delivery in ds && m.venue.Some? && m.venue == VenueOf(ms, m.delivery.matchId)
    {
      var k :| 0 <= k < |Kept(ds, ms)| && Kept(ds, ms)[k] == m;
      assert m in j && HasVenue(m);
      var i :| 0 <= i < |j| && j[i] == m;
    }
  }

  /** The drop is order preserving: joining a concatenation keeps the
      survivors of the first part ahead of those of the second. */
  lemma {:induction false} KeptConcat(ds1: seq<Delivery>, ds2: seq<Delivery>, ms: seq<MatchRec>)
    requires UniqueIds(ms)
    ensures Kept(ds1 + ds2, ms) == Kept(ds1, ms) + Kept(ds2, ms)
  {
    var j1, j2 := LeftJoin(ds1, ms), LeftJoin(ds2, ms);
    var j := LeftJoin(ds1 + ds2, ms);
    assert |j| == |j1 + j2|;
    forall i | 0 <= i < |j| ensures j[i] == (j1 + j2)[i] {
      if i < |ds1| {
        assert (ds1 + ds2)[i] == ds1[i];
      } else {
        assert (ds1 + ds2)[i] == ds2[i - |ds1|];
      }
    }
    assert j == j1 + j2;
    FilterConcat(j1, j2, HasVenue);
  }

  // ---------------------------------------------------------------------
  // Running totals per match
  // ---------------------------------------------------------------------

  /** Sum of `vals[j]` over the first `n` rows whose key is `k`. */
  function SumFor(keys: seq<int>, vals: seq<int>, n: nat, k: int): int
    requires |vals| == |keys| && n <= |keys|
  {
    if n == 0 then 0
    else SumFor(keys, vals, n - 1, k) + (if keys[n - 1] == k then vals[n - 1] else 0)
  }

  /** A cumulative sum of `vals` grouped by `keys`, in row order: each output is
      the sum over that row and every earlier row with the same key. */
  method GroupedCumSum(keys: seq<int>, vals: seq<int>) returns (sums: seq<int>)
    requires |keys| == |vals|
    ensures |sums| == |keys|
    ensures forall i :: 0 <= i < |keys| ==> sums[i] == SumFor(keys, vals, i + 1, keys[i])
  {
    var acc: map<int, int> := map[];
    sums := [];
    var i := 0;
    while i < |keys|
      invariant 0 <= i <= |keys|
      invariant |sums| == i
      invariant forall j :: 0 <= j < i ==> sums[j] == SumFor(keys, vals, j + 1, keys[j])
      invariant forall k :: SumFor(keys, vals, i, k) == if k in acc then acc[k] else 0
    {
      var total := (if keys[i] in acc then acc[keys[i]] else 0) + vals[i];
      acc := acc[keys[i] := total];
      sums := sums + [total];
      i := i + 1;
    }
  }

  /** Rows of other keys between positions `m` and `n` leave the running sum of `k` unchanged. */
  lemma {:induction false} SumForSkip(keys: seq<int>, vals: seq<int>, m: nat, n: nat, k: int)
    requires |vals| == |keys| && m <= n <= |keys|
    requires forall l :: m <= l < n ==> keys[l] != k
    ensures SumFor(keys, vals, n, k) == SumFor(keys, vals, m, k)
  {
    if n > m {
      SumForSkip(keys, vals, m, n - 1, k);
    }
  }

  /** With 0/1 values the running sum never decreases and grows by at most one per row. */
  lemma {:induction false} SumForBounded(keys: seq<int>, vals: seq<int>, m: nat, n: nat, k: int)
    requires |vals| == |keys| && m <= n <= |keys|
    requires forall l :: 0 <= l < |vals| ==> 0 <= vals[l] <= 1
    ensures SumFor(keys, vals, m, k) <= SumFor(keys, vals, n, k) <= SumFor(keys, vals, m, k) + (n - m)
  {
    if n > m {
      SumForBounded(keys, vals, m, n - 1, k);
    }
  }

  /** From one row of a match to the next row of the same match, the running
      sum grows by exactly the later row's value; with 0/1 values (the wicket
      flag) that is a step of 0 or 1. */
  lemma {:induction false} NextInGroup(keys: seq<int>, vals: seq<int>, i: nat, j: nat)
    requires |vals| == |keys| && i < j < |keys|
    requires keys[i] == keys[j]
    requires forall l :: i < l < j ==> keys[l] != keys[i]
    ensures SumFor(keys, vals, j + 1, keys[j]) == SumFor(keys, vals, i + 1, keys[i]) + vals[j]
    ensures (forall l :: 0 <= l < |vals| ==> 0 <= vals[l] <= 1) ==>
              SumFor(keys, vals, i + 1, keys[i]) <= SumFor(keys, vals, j + 1, keys[j]) <= SumFor(keys, vals, i + 1, keys[i]) + 1
  {
    SumForSkip(keys, vals, i + 1, j, keys[i]);
  }

  // ---------------------------------------------------------------------
  // Per-row derived columns
  // ---------------------------------------------------------------------

  /** `over + ball/6`, with an exact 0 replaced by 0.1: never zero, and equal to
      the number of balls bowled divided by six whenever that is not zero. */
  function OverBall(over: int, ball: int): (r: real)
    ensures r != 0.0
    ensures over * 6 + ball != 0 ==> r * 6.0 == (over * 6 + ball) as real
    ensures over * 6 + ball == 0 ==> r == 0.1
  {
    var raw := over as real + ball as real / 6.0;
    if raw == 0.0 then 0.1 else raw
  }

  /** `120 - (over*6 + ball)`, with an exact 0 replaced by 1: never zero, though
      negative once more than 120 balls have been counted. */
  function BallsLeft(over: int, ball: int): (r: int)
    ensures r != 0
    ensures over * 6 + ball != BallsPerInnings ==> r + over * 6 + ball == BallsPerInnings
    ensures over * 6 + ball == BallsPerInnings ==> r == 1
  {
    var raw := BallsPerInnings - (over * 6 + ball);
    if raw == 0 then 1 else raw
  }

  /** The guard does not rule out a negative count of balls left. */
  lemma BallsLeftMayBeNegative()
    ensures BallsLeft(19, 7) < 0
  {
  }

  /** Division as pandas performs it, with an infinite or undefined quotient
      (zero denominator) turned into a missing value. */
  function Ratio(num: real, den: real): (r: Option<real>)
    ensures r.None? <==> den == 0.0
    ensures r.Some? ==> r.value * den == num
  {
    if den == 0.0 then None else Some(num / den)
  }

  /** The label: 1 exactly for second-innings deliveries. */
  function ResultLabel(inning: int): (r: int)
    ensures r == 1 <==> inning == 2
    ensures r == 0 <==> inning != 2
  {
    if inning == 2 then 1 else 0
  }

  /** All derived columns of one kept row, given its running score and wickets. */
  function MakeRow(m: Merged, score: int, wickets: int): (r: Row)
    ensures r.delivery == m.delivery && r.venue == m.venue
    ensures r.currentScore == score && r.wickets == wickets
    ensures r.targetRuns == TargetRuns && r.runsLeft == TargetRuns - score
    ensures r.overBall == OverBall(m.delivery.over, m.delivery.ball)
    ensures r.ballsLeft == BallsLeft(m.delivery.over, m.delivery.ball)
    ensures r.crr.Some? && r.crr.value * r.overBall == score as real
    ensures r.rrr.Some? && r.rrr.value * (r.ballsLeft as real / 6.0) == (TargetRuns - score) as real
    ensures r.result == ResultLabel(m.delivery.inning)
  {
    var d := m.delivery;
    var overBall := OverBall(d.over, d.ball);
    var ballsLeft := BallsLeft(d.over, d.ball);
    var runsLeft := TargetRuns - score;
    Row(d, m.venue, score, TargetRuns, runsLeft, overBall, ballsLeft, wickets,
        Ratio(score as real, overBall), Ratio(runsLeft as real, ballsLeft as real / 6.0),
        ResultLabel(d.inning))
  }

  /** Neither run rate is missing (the `dropna` on crr and rrr). */
  predicate RatesFinite(r: Row) { r.crr.Some? && r.rrr.Some? }

  function MatchIds(ms: seq<Merged>): (r: seq<int>)
    ensures |r| == |ms| && forall i :: 0 <= i < |ms| ==> r[i] == ms[i].delivery.matchId
  {
    seq(|ms|, i requires 0 <= i < |ms| => ms[i].delivery.matchId)
  }

  /** The column `f` of a table of joined rows. */
  function Column(ms: seq<Merged>, f: Delivery -> int): (r: seq<int>)
    ensures |r| == |ms| && forall i :: 0 <= i < |ms| ==> r[i] == f(ms[i].delivery)
  {
    seq(|ms|, i requires 0 <= i < |ms| => f(ms[i].delivery))
  }

  function TotalRuns(d: Delivery): int { d.totalRuns }
  function IsWicket(d: Delivery): int { d.isWicket }

  /** The whole stage: join, drop rows without a venue, add running totals
      per match (across both innings), derive the remaining columns and drop
      rows with a non-finite rate. The last drop removes nothing. */
  method GenerateTrainingData(deliveries: seq<Delivery>, matches: seq<MatchRec>) returns (rows: seq<Row>)
    requires UniqueIds(matches)
    ensures var kept := Kept(deliveries, matches);
            |rows| == |kept| &&
            forall i :: 0 <= i < |rows| ==>
              rows[i] == MakeRow(kept[i],
                                 SumFor(MatchIds(kept), Column(kept, TotalRuns), i + 1, kept[i].delivery.matchId),
                                 SumFor(MatchIds(kept), Column(kept, IsWicket), i + 1, kept[i].delivery.matchId))
    ensures forall i :: 0 <= i < |rows| ==> rows[i].venue.Some? && RatesFinite(rows[i])
  {
    var merged := LeftJoin(deliveries, matches);
    merged := Filter(merged, HasVenue);
    var ids := MatchIds(merged);
    var scores := GroupedCumSum(ids, Column(merged, TotalRuns));
    var wickets := GroupedCumSum(ids, Column(merged, IsWicket));
    var derived := seq(|merged|, i requires 0 <= i < |merged| => MakeRow(merged[i], scores[i], wickets[i]));
    rows := Filter(derived, RatesFinite);
    FilterKeepsAll(derived, RatesFinite);
  }

  /** Sum of column `f` over the rows of `xs` that belong to match `k`. */
  function TotalOf(xs: seq<Merged>, k: int, f: Delivery -> int): int
  {
    if xs == [] then 0
    else TotalOf(xs[..|xs| - 1], k, f) +
         (if xs[|xs| - 1].delivery.matchId == k then f(xs[|xs| - 1].delivery) else 0)
  }

  lemma {:induction false} SumForIsTotal(xs: seq<Merged>, n: nat, k: int, f: Delivery -> int)
    requires n <= |xs|
    ensures SumFor(MatchIds(xs), Column(xs, f), n, k) == TotalOf(xs[..n], k, f)
  {
    if n > 0 {
      SumForIsTotal(xs, n - 1, k, f);
      assert xs[..n][..n - 1] == xs[..n - 1];
    }
  }

  /** Dropping rows without a venue does not change a match's total when all
      of that match's rows have a venue. */
  lemma {:induction false} TotalOfFilter(xs: seq<Merged>, k: int, f: Delivery -> int)
    requires forall i :: 0 <= i < |xs| && xs[i].delivery.matchId == k ==> HasVenue(xs[i])
    ensures TotalOf(Filter(xs, HasVenue), k, f) == TotalOf(xs, k, f)
  {
    if xs != [] {
      var init, last := xs[..|xs| - 1], xs[|xs| - 1];
      assert xs == init + [last];
      FilterConcat(init, [last], HasVenue);
      TotalOfFilter(init, k, f);
      var fi := Filter(init, HasVenue);
      assert [last][1..] == [];
      if HasVenue(last) {
        assert Filter(xs, HasVenue) == fi + [last];
        assert (fi + [last])[..|fi|] == fi;
      } else {
        assert Filter(xs, HasVenue) == fi;
      }
    }
  }

  /** The venue drop happens before the running totals, yet it removes whole
      matches only, so the running total of a surviving delivery in the kept
      table equals the per-match running total in the original delivery order
      (for the runs column, the wicket column or any other). */
  lemma {:induction false} RunningTotalInOriginalOrder(ds: seq<Delivery>, ms: seq<MatchRec>, p: nat, f: Delivery -> int)
    requires UniqueIds(ms)
    requires p < |ds| && VenueOf(ms, ds[p].matchId).Some?
    ensures var kept, joined, q := Kept(ds, ms), LeftJoin(ds, ms), |Kept(ds[..p], ms)|;
            q < |kept| && kept[q].delivery == ds[p] &&
            SumFor(MatchIds(kept), Column(kept, f), q + 1, ds[p].matchId) ==
            SumFor(MatchIds(joined), Column(joined, f), p + 1, ds[p].matchId)
  {
    var j := LeftJoin(ds, ms);
    var kept, q := Kept(ds, ms), |Kept(ds[..p], ms)|;
    KeptViaJoin(ds, ms, p);
    RunningTotalFiltered(j, p, f);
    assert SumFor(MatchIds(kept), Column(kept, f), q + 1, ds[p].matchId) ==
           SumFor(MatchIds(j), Column(j, f), p + 1, ds[p].matchId);
  }

  /** How the kept tables of `ds` and of its first `p` deliveries arise from
      the joined table, and that all earlier deliveries of the match of
      delivery `p` have its venue. */
  lemma {:induction false} KeptViaJoin(ds: seq<Delivery>, ms: seq<MatchRec>, p: nat)
    requires UniqueIds(ms)
    requires p < |ds| && VenueOf(ms, ds[p].matchId).Some?
    ensures var j := LeftJoin(ds, ms);
            Kept(ds, ms) == Filter(j, HasVenue) &&
            Kept(ds[..p], ms) == Filter(j[..p], HasVenue) &&
            j[p].delivery == ds[p] && HasVenue(j[p]) &&
            forall i :: 0 <= i <= p && j[i].delivery.matchId == j[p].delivery.matchId ==> HasVenue(j[i])
  {
    var j := LeftJoin(ds, ms);
    assert LeftJoin(ds[..p], ms) == j[..p];
  }

  /** The same on any joined table: if every row up to `p` of the match of row
      `p` has a venue, the venue drop keeps row `p`'s running total. */
  lemma {:induction false} RunningTotalFiltered(j: seq<Merged>, p: nat, f: Delivery -> int)
    requires p < |j| && HasVenue(j[p])
    requires forall i :: 0 <= i <= p && j[i].delivery.matchId == j[p].delivery.matchId ==> HasVenue(j[i])
    ensures var kept, q := Filter(j, HasVenue), |Filter(j[..p], HasVenue)|;
            q < |kept| && kept[q] == j[p] &&
            SumFor(MatchIds(kept), Column(kept, f), q + 1, j[p].delivery.matchId) ==
            SumFor(MatchIds(j), Column(j, f), p + 1, j[p].delivery.matchId)
  {
    var k := j[p].delivery.matchId;
    var kept := Filter(j, HasVenue);
    var q := |Filter(j[..p], HasVenue)|;
    FilterSplitAt(j, p, HasVenue);
    var prefix := j[..p + 1];
    assert forall i :: 0 <= i < |prefix| && prefix[i].delivery.matchId == k ==> HasVenue(prefix[i]) by {
      forall i | 0 <= i < |prefix| && prefix[i].delivery.matchId == k ensures HasVenue(prefix[i]) {
        assert prefix[i] == j[i];
      }
    }
    assert kept[..q + 1] == Filter(prefix, HasVenue);
    TotalOfFilter(prefix, k, f);
    SumForIsTotal(kept, q + 1, k, f);
    assert SumFor(MatchIds(kept), Column(kept, f), q + 1, k) == TotalOf(prefix, k, f);
    SumForIsTotal(j, p + 1, k, f);
  }

  /** The synthetic check: one match, two balls with runs [4, 0] and wickets
      [0, 1] give running scores [4, 4] and running wickets [0, 1]. */
  lemma TwoBallExample()
    ensures var keys, runs, wkts := [7, 7], [4, 0], [0, 1];
            SumFor(keys, runs, 1, 7) == 4 && SumFor(keys, runs, 2, 7) == 4 &&
            SumFor(keys, wkts, 1, 7) == 0 && SumFor(keys, wkts, 2, 7) == 1
  {
  }

  /** The grouping key is the match id alone: a second-innings ball's running
      score includes the first innings' runs. */
  lemma AcrossInningsExample()
    ensures var keys, runs := [7, 7, 7], [150, 6, 4];
            SumFor(keys, runs, 3, 7) == 160
  {
  }
}
