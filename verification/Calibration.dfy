/** Prediction-quality metrics over decision rows: hit rate, calibration error and Brier score. */
module Calibration {
  import opened Reals
  import opened Wrappers

  datatype Outcome = Open | Win | Loss | Flat | OtherOutcome
  datatype Direction = Long | Short | Neutral | OtherDirection

  // `confidence` is None when it cannot be read as a number.
  datatype Row = Row(outcome: Outcome, direction: Direction, confidence: Option<real>)

  datatype Bin = Bin(index: nat, lo: real, hi: real, count: nat, avgConfidence: real, avgAccuracy: real)

  datatype Metrics = Metrics(sampleCount: nat, resolvedCount: nat, directionalCount: nat, wins: nat,
                             losses: nat, flatCount: nat, openCount: nat, hitRate: Option<real>,
                             ece: Option<real>, bins: seq<Bin>, brier: Option<real>,
                             meanConfidence: Option<real>)

  // Clamped to [0, 1], 0 when unreadable.
  function Confidence(row: Row): real {
    var c := if row.confidence.Some? then row.confidence.value else 0.0;
    if c < 0.0 then 0.0 else if c > 1.0 then 1.0 else c
  }

  predicate IsDirectional(row: Row) {
    row.outcome in {Win, Loss} && row.direction in {Long, Short}
  }

  function Hit(row: Row): real { if row.outcome == Win then 1.0 else 0.0 }

  // How far the outcome lies above the confidence.
  function Gap(row: Row): real { Hit(row) - Confidence(row) }

  function Bets(rows: seq<Row>): seq<Row> {
    if rows == [] then []
    else
      var n := |rows| - 1;
      var front := Bets(rows[..n]);
      if IsDirectional(rows[n]) then front + [rows[n]] else front
  }

  function SumHits(rows: seq<Row>): real {
    if rows == [] then 0.0 else SumHits(rows[..|rows| - 1]) + Hit(rows[|rows| - 1])
  }

  function SumConfidence(rows: seq<Row>): real {
    if rows == [] then 0.0 else SumConfidence(rows[..|rows| - 1]) + Confidence(rows[|rows| - 1])
  }

  function SumAbsGap(rows: seq<Row>): real {
    if rows == [] then 0.0 else SumAbsGap(rows[..|rows| - 1]) + Abs(Gap(rows[|rows| - 1]))
  }

  function SumSquares(rows: seq<Row>): real {
    if rows == [] then 0.0
    else SumSquares(rows[..|rows| - 1]) + Gap(rows[|rows| - 1]) * Gap(rows[|rows| - 1])
  }

  function CountOutcome(rows: seq<Row>, outcome: Outcome): nat {
    if rows == [] then 0
    else CountOutcome(rows[..|rows| - 1], outcome) + (if rows[|rows| - 1].outcome == outcome then 1 else 0)
  }

  function Mean(total: real, count: nat): Option<real> {
    if count == 0 then None else Some(total / count as real)
  }

  // ---------------------------------------------------------------- bins

  // Membership of bin i of n; the last bin takes confidence 1 as well.
  predicate InBin(i: nat, n: nat, c: real)
    requires n > 0
  {
    (i as real / n as real <= c < (i + 1) as real / n as real) || (i == n - 1 && c == 1.0)
  }

  function BinOf(n: nat, c: real): int
    requires n > 0
  {
    if c == 1.0 then n - 1 else (c * n as real).Floor
  }

  // The bins partition [0, 1]: each confidence lies in exactly one, whose index is BinOf.
  lemma BinsPartition(i: nat, n: nat, c: real)
    requires n > 0 && 0.0 <= c <= 1.0
    ensures 0 <= BinOf(n, c) < n
    ensures i < n ==> (InBin(i, n, c) <==> i == BinOf(n, c))
  {
    hide InBin;
    InBinByProduct(i, n, c);
    var scaled := c * n as real;
    ProductRange(n, c, scaled);
    FloorBelow(scaled, i, n);
  }

  lemma ProductRange(n: nat, c: real, scaled: real)
    requires n > 0 && 0.0 <= c <= 1.0 && scaled == c * n as real
    ensures 0.0 <= scaled <= n as real
    ensures c < 1.0 <==> scaled < n as real
  {
    MulMono(0.0, c, n as real);
    MulMono(c, 1.0, n as real);
    if c < 1.0 {
      MulStrict(c, 1.0, n as real);
    }
  }

  lemma InBinByProduct(i: nat, n: nat, c: real)
    requires n > 0
    ensures InBin(i, n, c) <==> (i as real <= c * n as real < (i + 1) as real) || (i == n - 1 && c == 1.0)
  {
    DivLe(i as real, c, n as real);
    DivLe((i + 1) as real, c, n as real);
  }

  lemma FloorBelow(x: real, i: nat, n: nat)
    requires 0.0 <= x <= n as real
    ensures i as real <= x < (i + 1) as real <==> x.Floor == i
    ensures 0 <= x.Floor && (x < n as real <==> x.Floor < n)
  {
  }

  // The rows whose confidence falls in bin i of n.
  function Members(rows: seq<Row>, i: nat, n: nat): seq<Row>
    requires n > 0
  {
    if rows == [] then []
    else
      var m := |rows| - 1;
      var front := Members(rows[..m], i, n);
      if InBin(i, n, Confidence(rows[m])) then front + [rows[m]] else front
  }

  function Index(n: nat): Row -> int
    requires n > 0
  {
    (r: Row) => BinOf(n, Confidence(r))
  }

  // Rows of one bin, and of all bins below k, by bin index.
  function BinRows(rows: seq<Row>, i: nat, index: Row -> int): seq<Row> {
    if rows == [] then []
    else
      var m := |rows| - 1;
      var front := BinRows(rows[..m], i, index);
      if index(rows[m]) == i then front + [rows[m]] else front
  }

  function Below(rows: seq<Row>, k: nat, index: Row -> int): seq<Row> {
    if rows == [] then []
    else
      var m := |rows| - 1;
      var front := Below(rows[..m], k, index);
      if index(rows[m]) < k then front + [rows[m]] else front
  }

  lemma {:induction false} MembersByIndex(rows: seq<Row>, i: nat, n: nat)
    requires i < n
    ensures Members(rows, i, n) == BinRows(rows, i, Index(n))
    ensures forall r :: r in rows ==> 0 <= Index(n)(r) < n
  {
    if rows != [] {
      var m := |rows| - 1;
      MembersByIndex(rows[..m], i, n);
      BinsPartition(i, n, Confidence(rows[m]));
      assert rows == rows[..m] + [rows[m]];
    }
  }

  // One more bin adds exactly that bin's rows to every total.
  lemma {:induction false} NextBin(rows: seq<Row>, k: nat, index: Row -> int)
    ensures |Below(rows, k + 1, index)| == |Below(rows, k, index)| + |BinRows(rows, k, index)|
    ensures SumHits(Below(rows, k + 1, index)) == SumHits(Below(rows, k, index)) + SumHits(BinRows(rows, k, index))
    ensures SumConfidence(Below(rows, k + 1, index))
         == SumConfidence(Below(rows, k, index)) + SumConfidence(BinRows(rows, k, index))
    ensures SumAbsGap(Below(rows, k + 1, index)) == SumAbsGap(Below(rows, k, index)) + SumAbsGap(BinRows(rows, k, index))
  {
    hide Confidence, Hit, Gap, Abs;
    if rows != [] {
      var m := |rows| - 1;
      NextBin(rows[..m], k, index);
      Snoc(Below(rows[..m], k + 1, index), rows[m]);
      Snoc(Below(rows[..m], k, index), rows[m]);
      Snoc(BinRows(rows[..m], k, index), rows[m]);
    }
  }

  lemma Snoc(rows: seq<Row>, r: Row)
    ensures SumHits(rows + [r]) == SumHits(rows) + Hit(r)
    ensures SumConfidence(rows + [r]) == SumConfidence(rows) + Confidence(r)
    ensures SumAbsGap(rows + [r]) == SumAbsGap(rows) + Abs(Gap(r))
  {
    assert (rows + [r])[..|rows|] == rows;
  }

  lemma {:induction false} AllBelow(rows: seq<Row>, n: nat, index: Row -> int)
    requires forall r :: r in rows ==> 0 <= index(r) < n
    ensures Below(rows, n, index) == rows
    ensures Below(rows, 0, index) == []
  {
    if rows != [] {
      var m := |rows| - 1;
      assert rows[m] in rows;
      AllBelow(rows[..m], n, index);
    }
  }

  // Edges, size, average confidence and accuracy of bin i of n.
  function Report(n: nat): (seq<Row>, nat) -> Bin
    requires n > 0
  {
    (members: seq<Row>, i: nat) =>
      if members == [] then Bin(i, 0.0, 0.0, 0, 0.0, 0.0)
      else Bin(i, i as real / n as real, (i + 1) as real / n as real, |members|,
               SumConfidence(members) / |members| as real, SumHits(members) / |members| as real)
  }

  // Reports of the non-empty bins among the first k.
  function BinReports(bets: seq<Row>, k: nat, index: Row -> int, report: (seq<Row>, nat) -> Bin): seq<Bin> {
    if k == 0 then []
    else
      var front := BinReports(bets, k - 1, index, report);
      var members := BinRows(bets, k - 1, index);
      if members == [] then front else front + [report(members, k - 1)]
  }

  // A bin's share of the calibration error over `total` rows.
  function Weigh(total: nat): Bin -> real
    requires total > 0
  {
    (b: Bin) => b.count as real / total as real * Abs(b.avgAccuracy - b.avgConfidence)
  }

  function BinsError(bins: seq<Bin>, weigh: Bin -> real): real {
    if bins == [] then 0.0 else BinsError(bins[..|bins| - 1], weigh) + weigh(bins[|bins| - 1])
  }

  function BinsCount(bins: seq<Bin>): nat {
    if bins == [] then 0 else BinsCount(bins[..|bins| - 1]) + bins[|bins| - 1].count
  }

  function Ece(bets: seq<Row>, n: nat): real
    requires n > 0 && bets != []
  {
    BinsError(BinReports(bets, n, Index(n), Report(n)), Weigh(|bets|))
  }

  // ---------------------------------------------------------------- what the metrics say of the stated numbers

  ghost function Where(rows: seq<Row>, p: Row -> bool): set<int> {
    set i: int | 0 <= i < |rows| && p(rows[i])
  }

  // The stated number lies from lo to below hi. What is below 0 or unreadable counts as 0 and what is above
  // 1 as 1, which belongs below the edge 1.
  predicate StatedIn(stated: Option<real>, lo: real, hi: real) {
    || (lo <= 0.0 && (stated.None? || stated.value <= 0.0))
    || (stated.Some? && lo <= stated.value < hi)
    || (hi >= 1.0 && stated.Some? && stated.value >= 1.0)
  }

  // The stated number, cut off at 0 and 1, is c.
  predicate States(stated: Option<real>, c: real) {
    || (c == 0.0 && (stated.None? || stated.value <= 0.0))
    || (0.0 <= c <= 1.0 && stated == Some(c))
    || (c == 1.0 && stated.Some? && stated.value >= 1.0)
  }

  // Certain of what came true.
  predicate Perfect(r: Row) {
    if r.outcome == Win then r.confidence.Some? && r.confidence.value >= 1.0
    else r.confidence.None? || r.confidence.value <= 0.0
  }

  ghost predicate AllPerfect(rows: seq<Row>) {
    forall r :: r in rows && IsDirectional(r) ==> Perfect(r)
  }

  ghost predicate AllState(rows: seq<Row>, c: real) {
    forall r :: r in rows && IsDirectional(r) ==> States(r.confidence, c)
  }

  // The squared misses of h wins and l losses that all state c.
  function Misses(h: real, l: real, c: real): real {
    h * ((1.0 - c) * (1.0 - c)) + l * (c * c)
  }

  // The bin is one of n equal ones and not empty; it counts the bets stated within its edges and averages
  // their numbers and their wins.
  ghost predicate Exact(rows: seq<Row>, n: nat, b: Bin)
    requires n > 0
  {
    && b.index < n && b.lo == b.index as real / n as real && b.hi == (b.index + 1) as real / n as real
    && b.count == |Where(rows, (r: Row) => IsDirectional(r) && StatedIn(r.confidence, b.lo, b.hi))| > 0
    && b.lo <= b.avgConfidence <= b.hi
    && b.avgAccuracy * b.count as real
         == |Where(rows, (r: Row) => IsDirectional(r) && StatedIn(r.confidence, b.lo, b.hi) && r.outcome == Win)| as real
  }

  ghost predicate Ascending(bins: seq<Bin>) {
    forall i, j :: 0 <= i < j < |bins| ==> bins[i].index < bins[j].index
  }

  // ---------------------------------------------------------------- the metric loops

  method HitRate(rows: seq<Row>) returns (rate: Option<real>)
    ensures rate == Mean(SumHits(Bets(rows)), |Bets(rows)|)
  {
    var wins, losses := 0, 0;
    for i := 0 to |rows|
      invariant wins + losses == |Bets(rows[..i])| && wins >= 0 && losses >= 0
      invariant wins as real == SumHits(Bets(rows[..i]))
    {
      assert rows[..i + 1][..i] == rows[..i];
      Snoc(Bets(rows[..i]), rows[i]);
      if IsDirectional(rows[i]) {
        if rows[i].outcome == Win { wins := wins + 1; } else { losses := losses + 1; }
      }
    }
    assert rows[..|rows|] == rows;
    var denominator := wins + losses;
    rate := if denominator == 0 then None else Some(wins as real / denominator as real);
  }

  method BrierScore(rows: seq<Row>) returns (score: Option<real>)
    ensures score == Mean(SumSquares(Bets(rows)), |Bets(rows)|)
    ensures score == Some(0.0) <==> Bets(rows) != [] && AllPerfect(rows)
  {
    hide Bets, SumSquares, Gap, Confidence, AllPerfect;
    ScoreZeroIff(rows);
    NoSquares();
    var total, count := 0.0, 0;
    for i := 0 to |rows|
      invariant count == |Bets(rows[..i])|
      invariant total == SumSquares(Bets(rows[..i]))
    {
      BetsStep(rows, i);
      if IsDirectional(rows[i]) {
        var outcome := if rows[i].outcome == Win then 1.0 else 0.0;
        var miss := Confidence(rows[i]) - outcome;
        SquaresSnoc(Bets(rows[..i]), rows[i]);
        SquareOfMiss(rows[i]);
        total := total + miss * miss;
        count := count + 1;
      }
    }
    assert rows[..|rows|] == rows;
    score := if count == 0 then None else Some(total / count as real);
  }

  lemma NoSquares()
    ensures Bets([]) == [] && SumSquares([]) == 0.0
  {
  }

  lemma BetsStep(rows: seq<Row>, i: nat)
    requires i < |rows|
    ensures Bets(rows[..i + 1]) == if IsDirectional(rows[i]) then Bets(rows[..i]) + [rows[i]] else Bets(rows[..i])
  {
    assert rows[..i + 1][..i] == rows[..i];
  }

  lemma SquaresSnoc(rows: seq<Row>, r: Row)
    ensures SumSquares(rows + [r]) == SumSquares(rows) + Gap(r) * Gap(r)
  {
    hide Gap;
    assert (rows + [r])[..|rows|] == rows;
  }

  // The loop squares the gap with its sign reversed.
  lemma SquareOfMiss(r: Row)
    ensures var miss := Confidence(r) - if r.outcome == Win then 1.0 else 0.0;
      miss * miss == Gap(r) * Gap(r)
  {
    hide Confidence;
    SquareOfNegative(Gap(r));
  }

  lemma SquareOfNegative(x: real)
    ensures (-x) * (-x) == x * x
  {
  }

  method ExpectedCalibrationError(rows: seq<Row>, nBins: int) returns (ece: Option<real>, bins: seq<Bin>)
    ensures Bets(rows) == [] ==> ece == None && bins == []
    ensures Bets(rows) != [] ==>
      var n := if nBins <= 0 then 10 else nBins;
      ece == Some(Ece(Bets(rows), n)) && bins == BinReports(Bets(rows), n, Index(n), Report(n))
    ensures Ascending(bins)
    ensures forall b :: b in bins ==> Exact(rows, if nBins <= 0 then 10 else nBins, b)
  {
    hide Bets, Members, BinRows, BinReports, BinsError, Index, Report, Weigh, Exact;
    var n: nat := if nBins <= 0 then 10 else nBins;
    var directional := Bets(rows);
    if directional == [] {
      return None, [];
    }
    NothingReported(directional, n);
    var totalError := 0.0;
    bins := [];
    for i := 0 to n
      invariant bins == BinReports(directional, i, Index(n), Report(n))
      invariant totalError == BinsError(bins, Weigh(|directional|))
    {
      var members := Members(directional, i, n);
      MembersByIndex(directional, i, n);
      ReportsStep(directional, i, n, bins);
      if members != [] {
        var bin, share := MeasureBin(members, i, n, |directional|);
        ReportSnoc(bins, bin, Weigh(|directional|));
        totalError := totalError + share;
        bins := bins + [bin];
      }
    }
    BinsAreExact(rows, n, n);
    ece := Some(totalError);
  }

  lemma NothingReported(bets: seq<Row>, n: nat)
    requires n > 0 && bets != []
    ensures BinReports(bets, 0, Index(n), Report(n)) == [] && BinsError([], Weigh(|bets|)) == 0.0
  {
  }

  lemma ReportsStep(bets: seq<Row>, i: nat, n: nat, bins: seq<Bin>)
    requires n > 0 && bins == BinReports(bets, i, Index(n), Report(n))
    ensures BinReports(bets, i + 1, Index(n), Report(n)) ==
      if BinRows(bets, i, Index(n)) == [] then bins else bins + [Report(n)(BinRows(bets, i, Index(n)), i)]
  {
  }

  method MeasureBin(members: seq<Row>, i: nat, n: nat, total: nat) returns (bin: Bin, share: real)
    requires members != [] && i < n && total > 0
    ensures bin == Report(n)(members, i) && share == Weigh(total)(bin)
    ensures bin.count == |members| && bin.lo < bin.hi
    ensures 0.0 <= bin.avgConfidence <= 1.0 && 0.0 <= bin.avgAccuracy <= 1.0
    ensures share * total as real == TotalGap(members)
  {
    hide SumConfidence, SumHits, TotalGap;
    BinRange(members);
    BinEdges(i, n);
    GapOfAverages(members, total);
    var conf := SumConfidence(members) / |members| as real;
    var acc := SumHits(members) / |members| as real;
    var weight := |members| as real / total as real;
    bin := Bin(i, i as real / n as real, (i + 1) as real / n as real, |members|, conf, acc);
    share := weight * Abs(acc - conf);
  }

  lemma BinEdges(i: nat, n: nat)
    requires n > 0
    ensures i as real / n as real < (i + 1) as real / n as real
  {
    DivMul(i as real, n as real);
    DivMul((i + 1) as real, n as real);
    MulCancelStrict(i as real / n as real, (i + 1) as real / n as real, n as real);
  }

  // Averages of values between 0 and 1.
  lemma BinRange(members: seq<Row>)
    requires members != []
    ensures 0.0 <= SumConfidence(members) / |members| as real <= 1.0
    ensures 0.0 <= SumHits(members) / |members| as real <= 1.0
  {
    hide SumConfidence, SumHits;
    SumRange(members);
    UnitQuotient(SumConfidence(members), |members| as real);
    UnitQuotient(SumHits(members), |members| as real);
  }

  lemma UnitQuotient(a: real, k: real)
    requires 0.0 <= a <= k && 0.0 < k
    ensures 0.0 <= a / k <= 1.0
  {
    DivMul(a, k);
    MulCancel(0.0, a / k, k);
    MulCancel(a / k, 1.0, k);
  }

  lemma {:induction false} SumRange(rows: seq<Row>)
    ensures 0.0 <= SumConfidence(rows) <= |rows| as real && 0.0 <= SumHits(rows) <= |rows| as real
  {
    if rows != [] { SumRange(rows[..|rows| - 1]); }
  }

  lemma GapOfAverages(members: seq<Row>, total: nat)
    requires members != [] && total > 0
    ensures var k, t := |members| as real, total as real;
      k / t * Abs(SumHits(members) / k - SumConfidence(members) / k) * t == TotalGap(members)
  {
    hide SumConfidence, SumHits;
    Average(|members| as real, total as real, SumHits(members), SumConfidence(members));
  }

  method ComputeMetrics(rows: seq<Row>, nBins: int) returns (m: Metrics)
    ensures m.sampleCount == |rows| && m.resolvedCount + m.openCount == |rows|
    ensures m.openCount == CountOutcome(rows, Open) && m.flatCount == CountOutcome(rows, Flat)
    ensures m.wins == CountOutcome(Bets(rows), Win) && m.losses == CountOutcome(Bets(rows), Loss)
    ensures m.directionalCount == m.wins + m.losses == |Bets(rows)|
    ensures m.hitRate == Mean(SumHits(Bets(rows)), |Bets(rows)|)
    ensures m.brier == Mean(SumSquares(Bets(rows)), |Bets(rows)|)
    ensures m.meanConfidence == Mean(SumConfidence(Bets(rows)), |Bets(rows)|)
    ensures var n := if nBins <= 0 then 10 else nBins;
      && m.ece == (if Bets(rows) == [] then None else Some(Ece(Bets(rows), n)))
      && m.bins == (if Bets(rows) == [] then [] else BinReports(Bets(rows), n, Index(n), Report(n)))
    ensures m.hitRate.Some? == m.ece.Some? == m.brier.Some? == m.meanConfidence.Some? == (m.directionalCount > 0)
    ensures m.hitRate.Some? ==> m.hitRate.value == m.wins as real / m.directionalCount as real
    ensures BinsCount(m.bins) == m.directionalCount
    ensures m.ece.Some? ==>
      && Abs(m.meanConfidence.value - m.hitRate.value) <= m.ece.value
      && m.ece.value * m.ece.value <= m.brier.value <= 1.0
    ensures m.wins == |Where(rows, (r: Row) => r.outcome == Win && r.direction in {Long, Short})|
    ensures m.losses == |Where(rows, (r: Row) => r.outcome == Loss && r.direction in {Long, Short})|
    ensures m.openCount == |Where(rows, (r: Row) => r.outcome == Open)|
    ensures m.flatCount == |Where(rows, (r: Row) => r.outcome == Flat)|
    ensures m.brier == Some(0.0) <==> m.directionalCount > 0 && AllPerfect(rows)
    ensures forall c: real :: m.directionalCount > 0 && AllState(rows, c) ==>
      && m.meanConfidence == Some(c)
      && m.brier == Some(Misses(m.wins as real, m.losses as real, c) / m.directionalCount as real)
    ensures Ascending(m.bins)
    ensures forall b :: b in m.bins ==> Exact(rows, if nBins <= 0 then 10 else nBins, b)
  {
    hide *;
    var openCount := CountOutcome(rows, Open);
    CountBound(rows, Open);
    var bets := Bets(rows);
    BetsAreDirectional(rows);
    var wins, losses := CountOutcome(bets, Win), CountOutcome(bets, Loss);
    var hitRate := HitRate(rows);
    var ece, bins := ExpectedCalibrationError(rows, nBins);
    var brier := BrierScore(rows);
    var mean := if bets == [] then None else Some(SumConfidence(bets) / |bets| as real);
    MetricsFacts(bets, if nBins <= 0 then 10 else nBins);
    MetricsMeaning(rows);
    m := Metrics(|rows|, |rows| - openCount, wins + losses, wins, losses, CountOutcome(rows, Flat),
                 openCount, hitRate, ece, bins, brier, mean);
  }

  lemma MetricsFacts(bets: seq<Row>, n: nat)
    requires n > 0
    ensures CountOutcome(bets, Win) as real == SumHits(bets)
    ensures BinsCount([]) == 0
    ensures forall total: real {:trigger Mean(total, |bets|)} ::
      Mean(total, |bets|) == if bets == [] then None else Some(total / |bets| as real)
    ensures bets != [] ==>
      var t, e := |bets| as real, Ece(bets, n);
      && Abs(SumConfidence(bets) / t - SumHits(bets) / t) <= e && e * e <= SumSquares(bets) / t <= 1.0
      && BinsCount(BinReports(bets, n, Index(n), Report(n))) == |bets|
  {
    hide SumHits, SumConfidence, SumSquares, Ece, BinReports, BinsCount, CountOutcome, Abs;
    CountHits(bets);
    EmptyCount();
    if bets != [] {
      Calibrated(bets, n);
    }
  }

  lemma EmptyCount()
    ensures BinsCount([]) == 0
  {
  }

  lemma {:induction false} CountBound(rows: seq<Row>, outcome: Outcome)
    ensures CountOutcome(rows, outcome) <= |rows|
  {
    if rows != [] { CountBound(rows[..|rows| - 1], outcome); }
  }

  lemma {:induction false} BetsAreDirectional(rows: seq<Row>)
    ensures forall r :: r in Bets(rows) ==> IsDirectional(r)
    ensures CountOutcome(Bets(rows), Win) + CountOutcome(Bets(rows), Loss) == |Bets(rows)|
  {
    if rows != [] {
      var n := |rows| - 1;
      BetsAreDirectional(rows[..n]);
      assert (Bets(rows[..n]) + [rows[n]])[..|Bets(rows[..n])|] == Bets(rows[..n]);
    }
  }

  lemma {:induction false} CountHits(rows: seq<Row>)
    ensures CountOutcome(rows, Win) as real == SumHits(rows)
  {
    if rows != [] { CountHits(rows[..|rows| - 1]); }
  }

  // ---------------------------------------------------------------- why they say that

  lemma WhereSnoc(rows: seq<Row>, r: Row, p: Row -> bool)
    ensures |Where(rows + [r], p)| == |Where(rows, p)| + if p(r) then 1 else 0
  {
    assert Where(rows + [r], p) == Where(rows, p) + if p(r) then {|rows|} else {};
  }

  lemma NoneWhere(p: Row -> bool)
    ensures Where([], p) == {}
  {
  }

  lemma SameWhere(rows: seq<Row>, p: Row -> bool, q: Row -> bool)
    requires forall r :: r in rows ==> p(r) == q(r)
    ensures Where(rows, p) == Where(rows, q)
  {
  }

  lemma {:induction false} OutcomeWhere(rows: seq<Row>, outcome: Outcome)
    ensures CountOutcome(rows, outcome) == |Where(rows, (r: Row) => r.outcome == outcome)|
  {
    var p := (r: Row) => r.outcome == outcome;
    if rows == [] {
      NoneWhere(p);
    } else {
      var n := |rows| - 1;
      OutcomeWhere(rows[..n], outcome);
      assert rows == rows[..n] + [rows[n]];
      WhereSnoc(rows[..n], rows[n], p);
    }
  }

  lemma {:induction false} BetsWhere(rows: seq<Row>, p: Row -> bool, both: Row -> bool)
    requires forall r :: both(r) <==> IsDirectional(r) && p(r)
    ensures |Where(Bets(rows), p)| == |Where(rows, both)|
  {
    hide Where, IsDirectional;
    if rows == [] {
      NoneWhere(p);
      NoneWhere(both);
    } else {
      var n := |rows| - 1;
      BetsWhere(rows[..n], p, both);
      assert rows == rows[..n] + [rows[n]];
      WhereSnoc(rows[..n], rows[n], both);
      WhereSnoc(Bets(rows[..n]), rows[n], p);
    }
  }

  lemma {:induction false} MembersWhere(rows: seq<Row>, i: nat, n: nat, p: Row -> bool, both: Row -> bool)
    requires n > 0 && forall r :: both(r) <==> InBin(i, n, Confidence(r)) && p(r)
    ensures |Where(Members(rows, i, n), p)| == |Where(rows, both)|
  {
    hide Where, InBin, Confidence;
    if rows == [] {
      NoneWhere(p);
      NoneWhere(both);
    } else {
      var m := |rows| - 1;
      MembersWhere(rows[..m], i, n, p, both);
      assert rows == rows[..m] + [rows[m]];
      WhereSnoc(rows[..m], rows[m], both);
      WhereSnoc(Members(rows[..m], i, n), rows[m], p);
    }
  }

  lemma {:induction false} AllWhere(rows: seq<Row>, p: Row -> bool)
    requires forall r :: p(r)
    ensures |Where(rows, p)| == |rows|
  {
    if rows == [] {
      NoneWhere(p);
    } else {
      var n := |rows| - 1;
      AllWhere(rows[..n], p);
      assert rows == rows[..n] + [rows[n]];
      WhereSnoc(rows[..n], rows[n], p);
    }
  }

  lemma {:induction false} BetsMembers(rows: seq<Row>)
    ensures forall r :: r in Bets(rows) <==> r in rows && IsDirectional(r)
  {
    if rows != [] {
      var n := |rows| - 1;
      BetsMembers(rows[..n]);
      assert rows == rows[..n] + [rows[n]];
    }
  }

  lemma {:induction false} MembersOfBin(rows: seq<Row>, i: nat, n: nat)
    requires n > 0
    ensures forall r :: r in Members(rows, i, n) ==> r in rows && InBin(i, n, Confidence(r))
  {
    hide InBin, Confidence;
    if rows != [] {
      var m := |rows| - 1;
      MembersOfBin(rows[..m], i, n);
      assert rows == rows[..m] + [rows[m]];
    }
  }

  // The edges of a bin lie in [0, 1], at 0 for the first only and at 1 for the last only.
  lemma Edges(i: nat, n: nat)
    requires i < n
    ensures 0.0 <= i as real / n as real < (i + 1) as real / n as real <= 1.0
    ensures i as real / n as real <= 0.0 <==> i == 0
    ensures (i + 1) as real / n as real >= 1.0 <==> i == n - 1
  {
    BinEdges(i, n);
    UnitQuotient(i as real, n as real);
    UnitQuotient((i + 1) as real, n as real);
    DivMul(i as real, n as real);
    DivMul((i + 1) as real, n as real);
  }

  // A row is in the bin exactly when its stated number lies in the bin's edges.
  lemma InBinStated(i: nat, n: nat, r: Row)
    requires i < n
    ensures InBin(i, n, Confidence(r)) <==> StatedIn(r.confidence, i as real / n as real, (i + 1) as real / n as real)
  {
    Edges(i, n);
  }

  lemma InBinEdges(i: nat, n: nat, r: Row)
    requires i < n && InBin(i, n, Confidence(r))
    ensures i as real / n as real <= Confidence(r) <= (i + 1) as real / n as real
  {
    Edges(i, n);
  }

  lemma {:induction false} SumBetween(rows: seq<Row>, lo: real, hi: real)
    requires forall r :: r in rows ==> lo <= Confidence(r) <= hi
    ensures lo * |rows| as real <= SumConfidence(rows) <= hi * |rows| as real
  {
    hide Confidence;
    if rows != [] {
      var n := |rows| - 1;
      assert rows[n] in rows;
      SumBetween(rows[..n], lo, hi);
      OneMoreTimes(lo, n);
      OneMoreTimes(hi, n);
    }
  }

  lemma MeanBetween(rows: seq<Row>, lo: real, hi: real)
    requires rows != [] && forall r :: r in rows ==> lo <= Confidence(r) <= hi
    ensures lo <= SumConfidence(rows) / |rows| as real <= hi
  {
    hide SumConfidence, Confidence;
    var k := |rows| as real;
    SumBetween(rows, lo, hi);
    DivMul(SumConfidence(rows), k);
    MulCancel(lo, SumConfidence(rows) / k, k);
    MulCancel(SumConfidence(rows) / k, hi, k);
  }

  // The report of one bin's rows is exact.
  lemma ReportIsExact(rows: seq<Row>, i: nat, n: nat)
    requires i < n && Members(Bets(rows), i, n) != []
    ensures Exact(rows, n, Report(n)(Members(Bets(rows), i, n), i))
  {
    hide Bets, Members, Where, InBin, Confidence, SumConfidence, SumHits, IsDirectional, StatedIn;
    var bets, lo, hi := Bets(rows), i as real / n as real, (i + 1) as real / n as real;
    var members := Members(bets, i, n);
    MembersOfBin(bets, i, n);
    forall r | r in members ensures lo <= Confidence(r) <= hi {
      InBinEdges(i, n, r);
    }
    MeanBetween(members, lo, hi);
    DivMul(SumHits(members), |members| as real);
    InBinCount(rows, i, n, (r: Row) => true, (r: Row) => IsDirectional(r) && StatedIn(r.confidence, lo, hi));
    InBinCount(rows, i, n, (r: Row) => r.outcome == Win,
      (r: Row) => IsDirectional(r) && StatedIn(r.confidence, lo, hi) && r.outcome == Win);
    AllWhere(members, (r: Row) => true);
    HitsWhere(members);
  }

  lemma HitsWhere(rows: seq<Row>)
    ensures SumHits(rows) == |Where(rows, (r: Row) => r.outcome == Win)| as real
  {
    CountHits(rows);
    OutcomeWhere(rows, Win);
    SameWhere(rows, (r: Row) => r.outcome == Win, (r: Row) => r.outcome == Win);
  }

  lemma InBinCount(rows: seq<Row>, i: nat, n: nat, p: Row -> bool, all: Row -> bool)
    requires i < n
    requires forall r :: all(r) <==>
      IsDirectional(r) && StatedIn(r.confidence, i as real / n as real, (i + 1) as real / n as real) && p(r)
    ensures |Where(Members(Bets(rows), i, n), p)| == |Where(rows, all)|
  {
    hide Bets, Members, Where, InBin, Confidence, IsDirectional, StatedIn;
    var both := (r: Row) => InBin(i, n, Confidence(r)) && p(r);
    MembersWhere(Bets(rows), i, n, p, both);
    forall r ensures all(r) <==> IsDirectional(r) && both(r) {
      InBinStated(i, n, r);
    }
    BetsWhere(rows, both, all);
  }

  // Every reported bin is such a report, and the bins come in order.
  lemma {:induction false} BinsAreExact(rows: seq<Row>, n: nat, k: nat)
    requires k <= n && n > 0
    ensures var bins := BinReports(Bets(rows), k, Index(n), Report(n));
      && Ascending(bins)
      && (forall b :: b in bins ==> Exact(rows, n, b) && b.index < k)
  {
    hide Bets, Members, BinRows, BinReports, Index, Report, Exact;
    var bets := Bets(rows);
    if k == 0 {
      NoBinReports(bets, n);
    } else {
      BinsAreExact(rows, n, k - 1);
      ReportsStep(bets, k - 1, n, BinReports(bets, k - 1, Index(n), Report(n)));
      MembersByIndex(bets, k - 1, n);
      if Members(bets, k - 1, n) != [] {
        ReportIsExact(rows, k - 1, n);
        ReportIndex(n, Members(bets, k - 1, n), k - 1);
      }
    }
  }

  lemma NoBinReports(bets: seq<Row>, n: nat)
    requires n > 0
    ensures BinReports(bets, 0, Index(n), Report(n)) == []
  {
  }

  lemma ReportIndex(n: nat, members: seq<Row>, i: nat)
    requires n > 0
    ensures Report(n)(members, i).index == i
  {
  }

  // Nothing is missed exactly when every bet was certain of what came true.
  lemma {:induction false} NoMiss(rows: seq<Row>)
    ensures SumSquares(rows) >= 0.0
    ensures SumSquares(rows) == 0.0 <==> forall r :: r in rows ==> Gap(r) == 0.0
  {
    hide Gap;
    if rows != [] {
      var n := |rows| - 1;
      NoMiss(rows[..n]);
      assert rows == rows[..n] + [rows[n]];
      SameSign(Gap(rows[n]), Gap(rows[n]));
    }
  }

  lemma SameSign(x: real, y: real)
    requires (x > 0.0 && y > 0.0) || (x < 0.0 && y < 0.0) || (x == 0.0 && y == 0.0)
    ensures x * y >= 0.0 && (x * y == 0.0 <==> x == 0.0)
  {
    if x == 0.0 {
      ZeroFactor(x, y);
    }
  }

  lemma PerfectIff(r: Row)
    requires IsDirectional(r)
    ensures Gap(r) == 0.0 <==> Perfect(r)
  {
  }

  lemma ScoreZeroIff(rows: seq<Row>)
    ensures Mean(SumSquares(Bets(rows)), |Bets(rows)|) == Some(0.0) <==> Bets(rows) != [] && AllPerfect(rows)
  {
    hide Bets, SumSquares, Gap, Perfect;
    var bets := Bets(rows);
    BetsMembers(rows);
    NoMiss(bets);
    forall r | r in bets ensures Gap(r) == 0.0 <==> Perfect(r) {
      PerfectIff(r);
    }
    if bets != [] {
      DivMul(SumSquares(bets), |bets| as real);
      ZeroQuotient(SumSquares(bets), |bets| as real);
    }
  }

  lemma ZeroQuotient(a: real, k: real)
    requires k > 0.0
    ensures a / k == 0.0 <==> a == 0.0
  {
    DivMul(a, k);
  }

  // Bets that all state c.
  lemma {:induction false} UniformSums(rows: seq<Row>, c: real)
    requires forall r :: r in rows ==> Confidence(r) == c
    ensures SumSquares(rows) == Misses(SumHits(rows), |rows| as real - SumHits(rows), c)
  {
    if rows == [] {
      NoMisses(c);
    } else {
      hide *;
      var n := |rows| - 1;
      assert rows[n] in rows && rows == rows[..n] + [rows[n]];
      UniformSums(rows[..n], c);
      UniformStep(rows[..n], rows[n], SumHits(rows[..n]), n as real - SumHits(rows[..n]));
      Snoc(rows[..n], rows[n]);
    }
  }

  lemma UniformStep(rows: seq<Row>, r: Row, h: real, l: real)
    requires SumSquares(rows) == Misses(h, l, Confidence(r))
    ensures SumSquares(rows + [r]) == Misses(h + Hit(r), l + 1.0 - Hit(r), Confidence(r))
  {
    hide *;
    SquaresSnoc(rows, r);
    MissOf(r, h, l);
  }

  lemma NoMisses(c: real)
    ensures Misses(0.0, 0.0, c) == 0.0
  {
  }

  // One more row, stating what it states, adds its squared gap to the misses.
  lemma MissOf(r: Row, h: real, l: real)
    ensures var c := Confidence(r);
      Misses(h + Hit(r), l + 1.0 - Hit(r), c) == Misses(h, l, c) + Gap(r) * Gap(r)
  {
    hide Misses, Confidence;
    MissesStep(h, l, Confidence(r));
  }

  lemma MissesStep(h: real, l: real, c: real)
    ensures Misses(h + 1.0, l, c) == Misses(h, l, c) + (1.0 - c) * (1.0 - c)
    ensures Misses(h, l + 1.0, c) == Misses(h, l, c) + (0.0 - c) * (0.0 - c)
  {
    var a, b := (1.0 - c) * (1.0 - c), c * c;
    MulAdd(h, 1.0, a);
    MulAdd(l, 1.0, b);
    SquareOfNegative(c);
  }

  lemma UniformMetrics(rows: seq<Row>, c: real)
    requires Bets(rows) != [] && AllState(rows, c)
    ensures var bets := Bets(rows);
      && SumConfidence(bets) / |bets| as real == c
      && SumSquares(bets) == Misses(SumHits(bets), |bets| as real - SumHits(bets), c)
  {
    hide Bets, SumConfidence, SumSquares, SumHits, Confidence, States;
    var bets := Bets(rows);
    BetsMembers(rows);
    forall r | r in bets ensures Confidence(r) == c {
      StatedIsRead(r, c);
    }
    UniformSums(bets, c);
    MeanBetween(bets, c, c);
  }

  lemma StatedIsRead(r: Row, c: real)
    requires States(r.confidence, c)
    ensures Confidence(r) == c
  {
  }

  // The counts in terms of the rows, and the averages of bets that all state the same.
  lemma MetricsMeaning(rows: seq<Row>)
    ensures var bets := Bets(rows);
      && CountOutcome(bets, Win) == |Where(rows, (r: Row) => r.outcome == Win && r.direction in {Long, Short})|
      && CountOutcome(bets, Loss) == |Where(rows, (r: Row) => r.outcome == Loss && r.direction in {Long, Short})|
      && CountOutcome(rows, Open) == |Where(rows, (r: Row) => r.outcome == Open)|
      && CountOutcome(rows, Flat) == |Where(rows, (r: Row) => r.outcome == Flat)|
      && (forall c: real :: bets != [] && AllState(rows, c) ==>
            && SumConfidence(bets) / |bets| as real == c
            && SumSquares(bets) == Misses(CountOutcome(bets, Win) as real, CountOutcome(bets, Loss) as real, c))
  {
    hide Bets, Where, CountOutcome, SumSquares, SumConfidence, AllState, Misses;
    var bets := Bets(rows);
    OutcomeWhere(bets, Win);
    OutcomeWhere(bets, Loss);
    OutcomeWhere(rows, Open);
    OutcomeWhere(rows, Flat);
    BetsWhere(rows, (r: Row) => r.outcome == Win, (r: Row) => r.outcome == Win && r.direction in {Long, Short});
    BetsWhere(rows, (r: Row) => r.outcome == Loss, (r: Row) => r.outcome == Loss && r.direction in {Long, Short});
    BetsAreDirectional(rows);
    CountHits(bets);
    forall c: real | bets != [] && AllState(rows, c)
      ensures SumConfidence(bets) / |bets| as real == c
      ensures SumSquares(bets) == Misses(CountOutcome(bets, Win) as real, CountOutcome(bets, Loss) as real, c)
    {
      UniformMetrics(rows, c);
    }
  }

  // ---------------------------------------------------------------- calibration inequalities

  lemma Average(k: real, t: real, h: real, c: real)
    requires k > 0.0 && t > 0.0
    ensures k / t * Abs(h / k - c / k) * t == Abs(h - c)
  {
    var d := h / k - c / k;
    DivMul(h, k);
    DivMul(c, k);
    MulSub(h / k, c / k, k);
    AbsMul(d, k);
    DivMul(k, t);
    assert k / t * Abs(d) * t == k / t * t * Abs(d);
  }

  lemma {:induction false} GapBound(rows: seq<Row>)
    ensures TotalGap(rows) <= SumAbsGap(rows)
  {
    hide Hit, Confidence;
    if rows != [] { GapBound(rows[..|rows| - 1]); }
  }

  // Total gap, in absolute value, of each of the first k bins, added up.
  function SumBinGaps(bets: seq<Row>, k: nat, index: Row -> int): real {
    if k == 0 then 0.0
    else SumBinGaps(bets, k - 1, index) + TotalGap(BinRows(bets, k - 1, index))
  }

  function TotalGap(rows: seq<Row>): real {
    Abs(SumHits(rows) - SumConfidence(rows))
  }

  lemma ReportSnoc(bins: seq<Bin>, b: Bin, weigh: Bin -> real)
    ensures BinsError(bins + [b], weigh) == BinsError(bins, weigh) + weigh(b)
    ensures BinsCount(bins + [b]) == BinsCount(bins) + b.count
  {
    assert (bins + [b])[..|bins|] == bins;
  }

  // A report counts its rows, and its scaled share of the error is their total gap.
  ghost predicate Fair(report: (seq<Row>, nat) -> Bin, weigh: Bin -> real, scale: real -> real) {
    forall members: seq<Row>, i: nat :: members != [] ==>
      report(members, i).count == |members| && scale(weigh(report(members, i))) == TotalGap(members)
  }

  lemma SourceIsFair(n: nat, total: nat)
    requires n > 0 && total > 0
    ensures Fair(Report(n), Weigh(total), Times(total as real))
  {
    forall members: seq<Row>, i: nat | members != []
      ensures Times(total as real)(Weigh(total)(Report(n)(members, i))) == TotalGap(members)
    {
      Average(|members| as real, total as real, SumHits(members), SumConfidence(members));
    }
  }

  lemma {:induction false} ScaledError(bets: seq<Row>, k: nat, index: Row -> int,
                                       report: (seq<Row>, nat) -> Bin, weigh: Bin -> real, scale: real -> real)
    requires Additive(scale) && Fair(report, weigh, scale)
    ensures scale(BinsError(BinReports(bets, k, index, report), weigh)) == SumBinGaps(bets, k, index)
  {
    hide BinRows, TotalGap, BinsError;
    if k == 0 {
      NoError(weigh);
    } else {
      ScaledError(bets, k - 1, index, report, weigh, scale);
      var members := BinRows(bets, k - 1, index);
      if members == [] {
        NoGap();
      } else {
        ScaledSnoc(BinReports(bets, k - 1, index, report), report(members, k - 1), weigh, scale);
      }
    }
  }

  lemma NoError(weigh: Bin -> real)
    ensures BinsError([], weigh) == 0.0
  {
  }

  lemma NoGap()
    ensures TotalGap([]) == 0.0
  {
  }

  lemma ScaledSnoc(bins: seq<Bin>, b: Bin, weigh: Bin -> real, scale: real -> real)
    requires Additive(scale)
    ensures scale(BinsError(bins + [b], weigh)) == scale(BinsError(bins, weigh)) + scale(weigh(b))
  {
    ReportSnoc(bins, b, weigh);
    assert AddsAt(scale, BinsError(bins, weigh), weigh(b));
  }

  lemma NoBins(bets: seq<Row>, n: nat, index: Row -> int)
    requires forall r :: r in bets ==> 0 <= index(r) < n
    ensures TotalGap(Below(bets, 0, index)) == SumBinGaps(bets, 0, index) == SumAbsGap(Below(bets, 0, index)) == 0.0
  {
    AllBelow(bets, n, index);
  }

  lemma SumBinGapsStep(bets: seq<Row>, k: nat, index: Row -> int)
    ensures SumBinGaps(bets, k + 1, index) == SumBinGaps(bets, k, index) + TotalGap(BinRows(bets, k, index))
  {
  }

  lemma Triangle(whole: seq<Row>, a: seq<Row>, b: seq<Row>)
    requires SumHits(whole) == SumHits(a) + SumHits(b)
    requires SumConfidence(whole) == SumConfidence(a) + SumConfidence(b)
    ensures TotalGap(whole) <= TotalGap(a) + TotalGap(b)
  {
    hide SumHits, SumConfidence;
  }

  // The bin gaps of the first k bins lie between the total gap of their rows and the sum of the
  // rows' absolute gaps.
  lemma {:induction false} GapBounds(bets: seq<Row>, k: nat, n: nat, index: Row -> int)
    requires k <= n && forall r :: r in bets ==> 0 <= index(r) < n
    ensures TotalGap(Below(bets, k, index)) <= SumBinGaps(bets, k, index) <= SumAbsGap(Below(bets, k, index))
  {
    hide *;
    if k == 0 {
      NoBins(bets, n, index);
    } else {
      GapBounds(bets, k - 1, n, index);
      NextBin(bets, k - 1, index);
      SumBinGapsStep(bets, k - 1, index);
      GapBound(BinRows(bets, k - 1, index));
      Triangle(Below(bets, k, index), Below(bets, k - 1, index), BinRows(bets, k - 1, index));
    }
  }

  // Every row is counted in exactly one reported bin.
  lemma {:induction false} ReportsCount(bets: seq<Row>, k: nat, n: nat, index: Row -> int,
                                        report: (seq<Row>, nat) -> Bin, weigh: Bin -> real, scale: real -> real)
    requires k <= n && Fair(report, weigh, scale) && forall r :: r in bets ==> 0 <= index(r) < n
    ensures BinsCount(BinReports(bets, k, index, report)) == |Below(bets, k, index)|
  {
    hide *;
    if k == 0 {
      NoReports(bets, n, index, report);
    } else {
      ReportsCount(bets, k - 1, n, index, report, weigh, scale);
      NextBin(bets, k - 1, index);
      CountStep(bets, k - 1, index, report, weigh, scale);
    }
  }

  lemma NoReports(bets: seq<Row>, n: nat, index: Row -> int, report: (seq<Row>, nat) -> Bin)
    requires forall r :: r in bets ==> 0 <= index(r) < n
    ensures BinsCount(BinReports(bets, 0, index, report)) == 0 == |Below(bets, 0, index)|
  {
    AllBelow(bets, n, index);
  }

  lemma CountStep(bets: seq<Row>, k: nat, index: Row -> int, report: (seq<Row>, nat) -> Bin,
                  weigh: Bin -> real, scale: real -> real)
    requires Fair(report, weigh, scale)
    ensures BinsCount(BinReports(bets, k + 1, index, report))
         == BinsCount(BinReports(bets, k, index, report)) + |BinRows(bets, k, index)|
  {
    hide BinRows, TotalGap, BinsCount;
    var members := BinRows(bets, k, index);
    if members != [] {
      ReportSnoc(BinReports(bets, k, index, report), report(members, k), weigh);
    }
  }

  lemma {:induction false} SquaresBounds(rows: seq<Row>)
    ensures SumAbsGap(rows) * SumAbsGap(rows) <= |rows| as real * SumSquares(rows)
    ensures 0.0 <= SumAbsGap(rows) && 0.0 <= SumSquares(rows) <= |rows| as real
  {
    hide Gap;
    if rows != [] {
      var m := |rows| - 1;
      var g := Gap(rows[m]);
      GapRange(rows[m]);
      SquaresBounds(rows[..m]);
      CauchyStep(SumAbsGap(rows[..m]), SumSquares(rows[..m]), m as real, g,
                 SumAbsGap(rows), SumSquares(rows), |rows| as real);
    }
  }

  lemma GapRange(r: Row)
    ensures -1.0 <= Gap(r) <= 1.0
  {
  }

  lemma UnitSquare(x: real)
    requires 0.0 <= x <= 1.0
    ensures x * x <= x
  {
    MulMono(x, 1.0, x);
  }

  // Adding one gap g to a list of n gaps with absolute sum s and square sum q.
  lemma CauchyStep(s: real, q: real, n: real, g: real, s': real, q': real, n': real)
    requires s * s <= n * q && 0.0 <= s && 0.0 <= q <= n && -1.0 <= g <= 1.0
    requires (n == 0.0 && s == 0.0) || n >= 1.0
    requires s' == s + Abs(g) && q' == q + g * g && n' == n + 1.0
    ensures s' * s' <= n' * q' && 0.0 <= s' && 0.0 <= q' <= n'
  {
    var x := Abs(g);
    assert g * g == x * x;
    SquareNonneg(x);
    UnitSquare(x);
    SquareAdd(s, x);
    Grow(n, q, x * x);
    if n == 0.0 {
      ZeroFactor(s, x);
    } else {
      CrossTerm(s, q, n, x);
    }
  }

  lemma SquareNonneg(x: real)
    ensures 0.0 <= x * x
  {
  }

  lemma ZeroFactor(s: real, x: real)
    requires s == 0.0
    ensures s * x == 0.0 && s * s == 0.0
  {
  }

  lemma Grow(n: real, q: real, y: real)
    ensures (n + 1.0) * (q + y) == n * q + q + n * y + y
    ensures n == 0.0 ==> n * q == 0.0 && n * y == 0.0
  {
    MulAdd(n, 1.0, q + y);
    assert n * (q + y) == n * q + n * y;
  }

  // Twice the product is at most the sum of the squares, scaled.
  lemma CrossTerm(s: real, q: real, n: real, x: real)
    requires s * s <= n * q && n >= 1.0
    ensures 2.0 * (s * x) <= q + n * (x * x)
  {
    var d := s - n * x;
    assert d * d == s * s - 2.0 * (s * x) * n + n * (x * x) * n;
    assert 0.0 <= d * d;
    MulAdd(q, n * (x * x), n);
    MulCancel(2.0 * (s * x), q + n * (x * x), n);
  }

  // For any assignment of the rows to n bins, the error lies between the total gap of the rows and
  // the sum of their absolute gaps, and the reports count every row once.
  lemma BinnedError(bets: seq<Row>, n: nat, index: Row -> int, report: (seq<Row>, nat) -> Bin,
                    weigh: Bin -> real, scale: real -> real)
    requires Additive(scale) && Fair(report, weigh, scale) && forall r :: r in bets ==> 0 <= index(r) < n
    ensures var e := BinsError(BinReports(bets, n, index, report), weigh);
      TotalGap(bets) <= scale(e) <= SumAbsGap(bets)
    ensures BinsCount(BinReports(bets, n, index, report)) == |bets|
  {
    ScaledError(bets, n, index, report, weigh, scale);
    GapBounds(bets, n, n, index);
    ReportsCount(bets, n, n, index, report, weigh, scale);
    AllBelow(bets, n, index);
  }

  lemma EceBounds(bets: seq<Row>, n: nat)
    requires bets != [] && n > 0
    ensures Abs(SumHits(bets) - SumConfidence(bets)) <= Ece(bets, n) * |bets| as real <= SumAbsGap(bets)
    ensures BinsCount(BinReports(bets, n, Index(n), Report(n))) == |bets|
  {
    hide *;
    var t := |bets| as real;
    MembersByIndex(bets, 0, n);
    SourceIsFair(n, |bets|);
    TimesIsAdditive(t);
    BinnedError(bets, n, Index(n), Report(n), Weigh(|bets|), Times(t));
    Unfolded(bets, n);
  }

  lemma Unfolded(bets: seq<Row>, n: nat)
    requires bets != [] && n > 0
    ensures Times(|bets| as real)(BinsError(BinReports(bets, n, Index(n), Report(n)), Weigh(|bets|)))
         == Ece(bets, n) * |bets| as real
    ensures TotalGap(bets) == Abs(SumHits(bets) - SumConfidence(bets))
  {
    hide BinsError, BinReports, SumHits, SumConfidence, Abs, Weigh, Index, Report;
  }

  // A calibration error e lies between the bias |c/t - h/t| and the root of the Brier score q/t.
  predicate Sandwich(e: real, t: real, h: real, c: real, q: real)
    requires t > 0.0
  {
    Abs(c / t - h / t) <= e && e * e <= q / t <= 1.0
  }

  lemma Finish(e: real, t: real, h: real, c: real, a: real, q: real)
    requires t > 0.0 && Abs(h - c) <= e * t <= a && a * a <= t * q && 0.0 <= q <= t
    ensures Sandwich(e, t, h, c, q)
  {
    Bias(e, t, h, c);
    Root(e, t, a, q);
    DivLe(q, 1.0, t);
  }

  // The calibration error lies between the overall bias and the root of the Brier score, whatever
  // the rows and the number of bins; and the reported bins hold every directional row once.
  lemma Calibrated(bets: seq<Row>, n: nat)
    requires bets != [] && n > 0
    ensures Sandwich(Ece(bets, n), |bets| as real, SumHits(bets), SumConfidence(bets), SumSquares(bets))
    ensures BinsCount(BinReports(bets, n, Index(n), Report(n))) == |bets|
  {
    hide *;
    EceBounds(bets, n);
    SquaresBounds(bets);
    Finish(Ece(bets, n), |bets| as real, SumHits(bets), SumConfidence(bets), SumAbsGap(bets), SumSquares(bets));
  }

  lemma Bias(e: real, t: real, h: real, c: real)
    requires t > 0.0 && Abs(h - c) <= e * t
    ensures Abs(c / t - h / t) <= e
  {
    DivMul(c, t);
    DivMul(h, t);
    QuotientBias(e, t, h, c, h / t, c / t);
  }

  lemma QuotientBias(e: real, t: real, h: real, c: real, x: real, y: real)
    requires t > 0.0 && Abs(h - c) <= e * t && x * t == h && y * t == c
    ensures Abs(y - x) <= e
  {
    MulSub(y, x, t);
    AbsMul(y - x, t);
    MulCancel(Abs(y - x), e, t);
  }

  lemma Root(e: real, t: real, a: real, q: real)
    requires t > 0.0 && 0.0 <= e * t <= a && a * a <= t * q
    ensures e * e <= q / t
  {
    var r := q / t;
    DivMul(q, t);
    SquareMono(e * t, a);
    assert (e * t) * (e * t) == e * e * t * t;
    assert t * q == r * t * t;
    MulCancel(e * e * t, r * t, t);
    MulCancel(e * e, r, t);
  }

  // With a single bin the calibration error is exactly the overall bias.
  lemma OneBinIsBias(bets: seq<Row>)
    requires bets != []
    ensures Ece(bets, 1) * |bets| as real == TotalGap(bets)
  {
    MembersByIndex(bets, 0, 1);
    SourceIsFair(1, |bets|);
    TimesIsAdditive(|bets| as real);
    OneBinError(bets, Index(1), Report(1), Weigh(|bets|), Times(|bets| as real));
  }

  lemma OneBinError(bets: seq<Row>, index: Row -> int, report: (seq<Row>, nat) -> Bin, weigh: Bin -> real, scale: real -> real)
    requires Additive(scale) && Fair(report, weigh, scale) && forall r :: r in bets ==> index(r) == 0
    ensures scale(BinsError(BinReports(bets, 1, index, report), weigh)) == TotalGap(bets)
  {
    OneBinHoldsAll(bets, index);
    ScaledError(bets, 1, index, report, weigh, scale);
    assert SumBinGaps(bets, 0, index) == 0.0;
  }

  lemma {:induction false} OneBinHoldsAll(rows: seq<Row>, index: Row -> int)
    requires forall r :: r in rows ==> index(r) == 0
    ensures BinRows(rows, 0, index) == rows
  {
    if rows != [] {
      assert rows[|rows| - 1] in rows;
      OneBinHoldsAll(rows[..|rows| - 1], index);
    }
  }
}
