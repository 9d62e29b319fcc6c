/** The statistics page of one exam sitting: grade buckets and the pie chart's
    click filter, totals and the average score, the chart normalisation and the
    participant ranking. */
module AttemptStats {
  import opened Common

  /** One student's submission; `score` is `None` while it is ungraded. */
  datatype Submission = Submission(id: int, score: Option<real>, fraudAttempts: int, timeOutsideEval: int)

  // ---------------------------------------------------------------------------
  // Grade buckets

  datatype Bucket = Excellent | VeryGood | Good | Fair | Insufficient | Ungraded

  const Buckets: seq<Bucket> := [Excellent, VeryGood, Good, Fair, Insufficient, Ungraded]

  /** The chart label of each bucket. */
  function Label(b: Bucket): string {
    match b
    case Excellent => "Excelente (4.5-5.0)"
    case VeryGood => "Muy Bueno (4.0-4.4)"
    case Good => "Bueno (3.5-3.9)"
    case Fair => "Regular (3.0-3.4)"
    case Insufficient => "Insuficiente (0.0-2.9)"
    case Ungraded => "Sin calificar"
  }

  /** The filter the page writes for each bucket. */
  predicate InBucket(b: Bucket, s: Submission) {
    match b
    case Excellent => s.score.Some? && s.score.value >= 4.5
    case VeryGood => s.score.Some? && s.score.value >= 4.0 && s.score.value < 4.5
    case Good => s.score.Some? && s.score.value >= 3.5 && s.score.value < 4.0
    case Fair => s.score.Some? && s.score.value >= 3.0 && s.score.value < 3.5
    case Insufficient => s.score.Some? && s.score.value < 3.0
    case Ungraded => s.score.None?
  }

  /** The bucket a submission lands in. */
  function BucketOf(s: Submission): (b: Bucket)
    ensures InBucket(b, s)
  {
    if s.score.None? then Ungraded
    else if s.score.value >= 4.5 then Excellent
    else if s.score.value >= 4.0 then VeryGood
    else if s.score.value >= 3.5 then Good
    else if s.score.value >= 3.0 then Fair
    else Insufficient
  }

  /** The six filters partition the submissions: each one is in exactly one bucket. */
  lemma BucketsPartition(s: Submission, b: Bucket)
    ensures InBucket(b, s) <==> b == BucketOf(s)
  {
  }

  /** `submissions.filter(...)` for one bucket. */
  function Filter(subs: seq<Submission>, b: Bucket): (r: seq<Submission>)
    ensures |r| <= |subs|
    ensures forall s :: s in r <==> s in subs && InBucket(b, s)
  {
    if subs == [] then []
    else (if InBucket(b, subs[0]) then [subs[0]] else []) + Filter(subs[1..], b)
  }

  function SumCounts(subs: seq<Submission>, bs: seq<Bucket>): nat {
    if bs == [] then 0 else |Filter(subs, bs[0])| + SumCounts(subs, bs[1..])
  }

  /** Every submission is counted exactly once across the six buckets. */
  lemma {:induction false} BucketCountsAddUp(subs: seq<Submission>)
    ensures SumCounts(subs, Buckets) == |subs|
  {
    if subs != [] {
      BucketCountsAddUp(subs[1..]);
      var b := BucketOf(subs[0]);
      FirstCountedOnce(subs);
      SumCountsStep(subs, Buckets, b);
      BucketOccursOnce(b);
    } else {
      NothingCounted(Buckets);
    }
  }

  /** With no submissions every bucket is empty. */
  lemma {:induction false} NothingCounted(bs: seq<Bucket>)
    ensures SumCounts([], bs) == 0
  {
    if bs != [] {
      NothingCounted(bs[1..]);
    }
  }

  /** The first submission adds one to the count of its own bucket and nothing elsewhere. */
  lemma FirstCountedOnce(subs: seq<Submission>)
    requires subs != []
    ensures forall c :: |Filter(subs, c)| == |Filter(subs[1..], c)| + (if c == BucketOf(subs[0]) then 1 else 0)
  {
    forall c
      ensures |Filter(subs, c)| == |Filter(subs[1..], c)| + (if c == BucketOf(subs[0]) then 1 else 0)
    {
      FilterStep(subs, c);
      BucketsPartition(subs[0], c);
    }
  }

  /** Each bucket appears once in the chart's list. */
  lemma BucketOccursOnce(b: Bucket)
    ensures Occurrences(Buckets, b) == 1
  {
    assert Buckets[1..] == [VeryGood, Good, Fair, Insufficient, Ungraded];
    assert Buckets[2..] == [Good, Fair, Insufficient, Ungraded];
    assert Buckets[3..] == [Fair, Insufficient, Ungraded];
    assert Buckets[4..] == [Insufficient, Ungraded];
    assert Buckets[5..] == [Ungraded];
  }

  /** The first submission adds one to its bucket's count, and only there. */
  lemma FilterStep(subs: seq<Submission>, c: Bucket)
    requires subs != []
    ensures |Filter(subs, c)| == |Filter(subs[1..], c)| + (if InBucket(c, subs[0]) then 1 else 0)
  {
  }

  lemma {:induction false} SumCountsStep(subs: seq<Submission>, bs: seq<Bucket>, b: Bucket)
    requires subs != []
    requires forall c :: c in bs ==> |Filter(subs, c)| == |Filter(subs[1..], c)| + (if c == b then 1 else 0)
    ensures SumCounts(subs, bs) == SumCounts(subs[1..], bs) + Occurrences(bs, b)
  {
    if bs != [] {
      SumCountsStep(subs, bs[1..], b);
    }
  }

  function Occurrences(bs: seq<Bucket>, b: Bucket): nat {
    if bs == [] then 0 else (if bs[0] == b then 1 else 0) + Occurrences(bs[1..], b)
  }

  /** One slice of the pie chart. */
  datatype Slice = Slice(name: string, value: nat)

  function Slices(subs: seq<Submission>, bs: seq<Bucket>): (r: seq<Slice>)
    ensures |r| <= |bs|
    ensures forall i :: 0 <= i < |r| ==> r[i].value > 0
    ensures forall b :: b in bs && |Filter(subs, b)| > 0 ==> Slice(Label(b), |Filter(subs, b)|) in r
    ensures forall x :: x in r ==> exists b :: b in bs && x == Slice(Label(b), |Filter(subs, b)|)
  {
    if bs == [] then []
    else
      var n := |Filter(subs, bs[0])|;
      (if n > 0 then [Slice(Label(bs[0]), n)] else []) + Slices(subs, bs[1..])
  }

  /** The grade distribution: the six buckets in order, without the empty ones. */
  function GradeDistribution(subs: seq<Submission>): (r: seq<Slice>)
    ensures forall i :: 0 <= i < |r| ==> r[i].value > 0
    ensures forall b :: |Filter(subs, b)| > 0 <==> Slice(Label(b), |Filter(subs, b)|) in r
  {
    var r := Slices(subs, Buckets);
    forall b | |Filter(subs, b)| > 0
      ensures Slice(Label(b), |Filter(subs, b)|) in r
    {
      assert b in Buckets;
    }
    forall b | Slice(Label(b), |Filter(subs, b)|) in r
      ensures |Filter(subs, b)| > 0
    {
      var c :| c in Buckets && Slice(Label(b), |Filter(subs, b)|) == Slice(Label(c), |Filter(subs, c)|);
      LabelInjective(b, c);
    }
    r
  }

  lemma LabelInjective(b: Bucket, c: Bucket)
    requires Label(b) == Label(c)
    ensures b == c
  {
  }

  // ---------------------------------------------------------------------------
  // Pie click

  /** The students listed when a slice is clicked: `None` for an empty name
      (nothing opens); names are matched by prefix, in this order. */
  function PieClick(name: string, subs: seq<Submission>): (r: Option<seq<Submission>>)
    ensures r.None? <==> name == ""
  {
    if name == "" then None
    else if StartsWith(name, "Excelente") then Some(Filter(subs, Excellent))
    else if StartsWith(name, "Muy Bueno") then Some(Filter(subs, VeryGood))
    else if StartsWith(name, "Bueno") then Some(Filter(subs, Good))
    else if StartsWith(name, "Regular") then Some(Filter(subs, Fair))
    else if StartsWith(name, "Insuficiente") then Some(Filter(subs, Insufficient))
    else if StartsWith(name, "Sin calificar") then Some(Filter(subs, Ungraded))
    else Some([])
  }

  lemma FirstCharRules(s: string, prefix: string)
    requires |s| > 0 && |prefix| > 0 && s[0] != prefix[0]
    ensures !StartsWith(s, prefix)
  {
  }

  /** Clicking a slice lists exactly the submissions counted in it: each
      label starts with its own prefix and with no earlier one. */
  lemma PieClickMatchesBucket(b: Bucket, subs: seq<Submission>)
    ensures PieClick(Label(b), subs) == Some(Filter(subs, b))
  {
    var l := Label(b);
    match b
    case Excellent =>
      assert l[..9] == "Excelente";
    case VeryGood =>
      FirstCharRules(l, "Excelente");
      assert l[..9] == "Muy Bueno";
    case Good =>
      FirstCharRules(l, "Excelente");
      FirstCharRules(l, "Muy Bueno");
      assert l[..5] == "Bueno";
    case Fair =>
      FirstCharRules(l, "Excelente");
      FirstCharRules(l, "Muy Bueno");
      FirstCharRules(l, "Bueno");
      assert l[..7] == "Regular";
    case Insufficient =>
      FirstCharRules(l, "Excelente");
      FirstCharRules(l, "Muy Bueno");
      FirstCharRules(l, "Bueno");
      FirstCharRules(l, "Regular");
      assert l[..12] == "Insuficiente";
    case Ungraded =>
      FirstCharRules(l, "Excelente");
      FirstCharRules(l, "Muy Bueno");
      FirstCharRules(l, "Bueno");
      FirstCharRules(l, "Regular");
      FirstCharRules(l, "Insuficiente");
      assert l[..13] == "Sin calificar";
  }

  // ---------------------------------------------------------------------------
  // Totals

  function TotalFraud(subs: seq<Submission>): int {
    if subs == [] then 0 else subs[0].fraudAttempts + TotalFraud(subs[1..])
  }

  function TotalTime(subs: seq<Submission>): int {
    if subs == [] then 0 else subs[0].timeOutsideEval + TotalTime(subs[1..])
  }

  function Scored(subs: seq<Submission>): (r: seq<Submission>)
    ensures |r| <= |subs|
    ensures forall s :: s in r <==> s in subs && s.score.Some?
  {
    if subs == [] then [] else (if subs[0].score.Some? then [subs[0]] else []) + Scored(subs[1..])
  }

  function ScoreSum(subs: seq<Submission>): real {
    if subs == [] then 0.0 else (if subs[0].score.Some? then subs[0].score.value else 0.0) + ScoreSum(subs[1..])
  }

  /** The mean over scored submissions, 0 when none is scored. */
  function AverageScore(subs: seq<Submission>): (avg: real)
    ensures |Scored(subs)| == 0 ==> avg == 0.0
    ensures |Scored(subs)| > 0 ==> avg * (|Scored(subs)| as real) == ScoreSum(subs)
  {
    var n := |Scored(subs)|;
    if n > 0 then ScoreSum(subs) / (n as real) else 0.0
  }

  /** Grades are on a 0 to 5 scale. */
  const MaxGrade: real := 5.0

  predicate ScoresOnScale(subs: seq<Submission>) {
    forall i :: 0 <= i < |subs| && subs[i].score.Some? ==> 0.0 <= subs[i].score.value <= MaxGrade
  }

  lemma {:induction false} ScoreSumBounds(subs: seq<Submission>)
    requires ScoresOnScale(subs)
    ensures 0.0 <= ScoreSum(subs) <= MaxGrade * (|Scored(subs)| as real)
  {
    if subs != [] {
      ScoresOnScaleTail(subs);
      ScoreSumBounds(subs[1..]);
      ScoredStep(subs);
    }
  }

  lemma ScoredStep(subs: seq<Submission>)
    requires subs != []
    ensures |Scored(subs)| as real == |Scored(subs[1..])| as real + (if subs[0].score.Some? then 1.0 else 0.0)
    ensures ScoreSum(subs) == ScoreSum(subs[1..]) + (if subs[0].score.Some? then subs[0].score.value else 0.0)
  {
  }

  lemma ScoresOnScaleTail(subs: seq<Submission>)
    requires ScoresOnScale(subs) && subs != []
    ensures ScoresOnScale(subs[1..])
    ensures subs[0].score.Some? ==> 0.0 <= subs[0].score.value <= MaxGrade
  {
    forall i | 0 <= i < |subs[1..]| && subs[1..][i].score.Some?
      ensures 0.0 <= subs[1..][i].score.value <= MaxGrade
    {
      assert subs[1..][i] == subs[i + 1];
    }
  }

  /** With every grade on the 0 to 5 scale, so is the average. */
  lemma AverageOnScale(subs: seq<Submission>)
    requires ScoresOnScale(subs)
    requires |Scored(subs)| > 0
    ensures 0.0 <= AverageScore(subs) <= MaxGrade
  {
    ScoreSumBounds(subs);
    var n := |Scored(subs)| as real;
    assert AverageScore(subs) == ScoreSum(subs) / n;
    QuotientBounds(ScoreSum(subs), n, 0.0, MaxGrade);
  }

  lemma QuotientBounds(sum: real, n: real, lo: real, hi: real)
    requires n > 0.0 && lo * n <= sum <= hi * n
    ensures lo <= sum / n <= hi
  {
    assert sum / n * n == sum;
  }

  // ---------------------------------------------------------------------------
  // Chart normalisation

  /** `Math.max(...values, 0) || 1`. */
  function MaxOrOne(values: seq<int>): (m: int)
    ensures m >= 1
    ensures forall i :: 0 <= i < |values| ==> values[i] <= m
    ensures m == 1 || m in values
  {
    var mx := MaxWithZero(values);
    if mx == 0 then 1 else mx
  }

  function MaxWithZero(values: seq<int>): (m: int)
    ensures m >= 0
    ensures forall i :: 0 <= i < |values| ==> values[i] <= m
    ensures m == 0 || m in values
  {
    if values == [] then 0
    else
      var rest := MaxWithZero(values[1..]);
      if values[0] > rest then values[0] else rest
  }

  function FraudCounts(subs: seq<Submission>): (r: seq<int>)
    ensures |r| == |subs| && forall i :: 0 <= i < |subs| ==> r[i] == subs[i].fraudAttempts
  {
    if subs == [] then [] else [subs[0].fraudAttempts] + FraudCounts(subs[1..])
  }

  function TimesOutside(subs: seq<Submission>): (r: seq<int>)
    ensures |r| == |subs| && forall i :: 0 <= i < |subs| ==> r[i] == subs[i].timeOutsideEval
  {
    if subs == [] then [] else [subs[0].timeOutsideEval] + TimesOutside(subs[1..])
  }

  /** `value / max` as drawn on the combined chart. */
  function Normalised(value: int, max: int): real
    requires max >= 1
  {
    (value as real) / (max as real)
  }

  /** For non-negative counters the normalised fraud and time values lie in [0, 1]. */
  lemma NormalisedInUnitRange(subs: seq<Submission>, i: int)
    requires 0 <= i < |subs|
    requires subs[i].fraudAttempts >= 0 && subs[i].timeOutsideEval >= 0
    ensures 0.0 <= Normalised(subs[i].fraudAttempts, MaxOrOne(FraudCounts(subs))) <= 1.0
    ensures 0.0 <= Normalised(subs[i].timeOutsideEval, MaxOrOne(TimesOutside(subs))) <= 1.0
  {
    UnitRatio(subs[i].fraudAttempts, MaxOrOne(FraudCounts(subs)));
    UnitRatio(subs[i].timeOutsideEval, MaxOrOne(TimesOutside(subs)));
  }

  lemma UnitRatio(v: int, m: int)
    requires 0 <= v <= m && m >= 1
    ensures 0.0 <= (v as real) / (m as real) <= 1.0
  {
    QuotientBounds(v as real, m as real, 0.0, 1.0);
  }

  // ---------------------------------------------------------------------------
  // Ranking

  /** The comparator's strict order: a scored submission comes before an
      unscored one and before any lower score. */
  predicate Precedes(a: Submission, b: Submission) {
    a.score.Some? && (b.score.None? || a.score.value > b.score.value)
  }

  /** `a` may stand before `b` in the ranking. */
  predicate NotAfter(a: Submission, b: Submission) {
    b.score.None? || (a.score.Some? && a.score.value >= b.score.value)
  }

  predicate RankOrdered(s: seq<Submission>) {
    forall i, j :: 0 <= i < j < |s| ==> NotAfter(s[i], s[j])
  }

  /** Inserts `x` after every entry it does not precede (keeping ties in order). */
  function Insert(x: Submission, s: seq<Submission>): (r: seq<Submission>)
    ensures multiset(r) == multiset(s) + multiset{x}
  {
    if s == [] then [x]
    else if Precedes(x, s[0]) then [x] + s
    else
      assert s == [s[0]] + s[1..];
      [s[0]] + Insert(x, s[1..])
  }

  lemma OrderedTail(s: seq<Submission>)
    requires RankOrdered(s) && s != []
    ensures RankOrdered(s[1..])
  {
    forall a, b | 0 <= a < b < |s[1..]|
      ensures NotAfter(s[1..][a], s[1..][b])
    {
      assert s[1..][a] == s[a + 1] && s[1..][b] == s[b + 1];
    }
  }

  lemma {:induction false} InsertOrdered(x: Submission, s: seq<Submission>)
    requires RankOrdered(s)
    ensures RankOrdered(Insert(x, s))
  {
    if s != [] {
      if Precedes(x, s[0]) {
        var r := [x] + s;
        forall i, j | 0 <= i < j < |r|
          ensures NotAfter(r[i], r[j])
        {
          if i == 0 {
            assert NotAfter(s[0], s[j - 1]) || j - 1 == 0;
          } else {
            assert r[i] == s[i - 1] && r[j] == s[j - 1];
          }
        }
      } else {
        OrderedTail(s);
        InsertOrdered(x, s[1..]);
        var rest := Insert(x, s[1..]);
        var r := [s[0]] + rest;
        forall i, j | 0 <= i < j < |r|
          ensures NotAfter(r[i], r[j])
        {
          if i == 0 {
            var y := rest[j - 1];
            assert y in multiset(rest);
            if y != x {
              assert y in multiset(s[1..]);
              var k :| 0 <= k < |s[1..]| && s[1..][k] == y;
              assert s[k + 1] == y;
            }
          } else {
            assert r[i] == rest[i - 1] && r[j] == rest[j - 1];
          }
        }
      }
    }
  }

  /** `[...submissions].sort(...)`: highest score first, ungraded last. */
  function Ranked(subs: seq<Submission>): (r: seq<Submission>)
    ensures multiset(r) == multiset(subs)
    ensures RankOrdered(r)
  {
    if subs == [] then []
    else
      var init := subs[..|subs| - 1];
      var last := subs[|subs| - 1];
      assert subs == init + [last];
      InsertOrdered(last, Ranked(init));
      Insert(last, Ranked(init))
  }

  /** The ranking puts every scored submission before every unscored one, with
      scores not increasing. */
  lemma RankingOrder(subs: seq<Submission>, i: int, j: int)
    requires 0 <= i < j < |Ranked(subs)|
    ensures Ranked(subs)[i].score.None? ==> Ranked(subs)[j].score.None?
    ensures Ranked(subs)[i].score.Some? && Ranked(subs)[j].score.Some? ==>
      Ranked(subs)[i].score.value >= Ranked(subs)[j].score.value
  {
  }

  /** Ranking keeps the totals. */
  lemma {:induction false} TotalsPermutationInvariant(a: seq<Submission>, b: seq<Submission>)
    requires multiset(a) == multiset(b)
    ensures TotalFraud(a) == TotalFraud(b) && TotalTime(a) == TotalTime(b)
    decreases |a|
  {
    if a != [] {
      var x := a[0];
      assert x in multiset(b);
      var k :| 0 <= k < |b| && b[k] == x;
      var b' := b[..k] + b[k + 1..];
      RemoveAtMultiset(b, k);
      assert a == [x] + a[1..];
      assert multiset(a[1..]) == multiset(a) - multiset{x};
      TotalsPermutationInvariant(a[1..], b');
      TotalsRemoveAt(b, k);
    }
  }

  /** Taking out the entry at `k` takes one copy of it out of the multiset. */
  lemma RemoveAtMultiset(b: seq<Submission>, k: int)
    requires 0 <= k < |b|
    ensures multiset(b[..k] + b[k + 1..]) == multiset(b) - multiset{b[k]}
  {
    assert b == b[..k] + [b[k]] + b[k + 1..];
  }

  /** The totals with the entry at `k` taken out. */
  lemma TotalsRemoveAt(b: seq<Submission>, k: int)
    requires 0 <= k < |b|
    ensures TotalFraud(b) == b[k].fraudAttempts + TotalFraud(b[..k] + b[k + 1..])
    ensures TotalTime(b) == b[k].timeOutsideEval + TotalTime(b[..k] + b[k + 1..])
  {
    var pre, rest := b[..k], b[k + 1..];
    var mid := [b[k]] + rest;
    assert b == pre + mid;
    assert mid[1..] == rest;
    assert TotalFraud(mid) == b[k].fraudAttempts + TotalFraud(rest);
    assert TotalTime(mid) == b[k].timeOutsideEval + TotalTime(rest);
    TotalsSplit(pre, mid);
    TotalsSplit(pre, rest);
  }

  lemma {:induction false} TotalsSplit(a: seq<Submission>, b: seq<Submission>)
    ensures TotalFraud(a + b) == TotalFraud(a) + TotalFraud(b)
    ensures TotalTime(a + b) == TotalTime(a) + TotalTime(b)
    decreases |a|
  {
    if a != [] {
      assert (a + b)[1..] == a[1..] + b;
      TotalsSplit(a[1..], b);
    } else {
      assert a + b == b;
    }
  }

  function CountScored(s: seq<Submission>): nat {
    if s == [] then 0 else (if s[0].score.Some? then 1 else 0) + CountScored(s[1..])
  }

  /** The rank cell: a 1-based position for a scored participant, '-' otherwise. */
  function RankCell(ranked: seq<Submission>, index: int): (r: Option<int>)
    requires 0 <= index < |ranked|
    ensures r.Some? <==> ranked[index].score.Some?
    ensures r.Some? ==> r.value == index + 1
  {
    if ranked[index].score.Some? then Some(index + 1) else None
  }

  lemma {:induction false} ScoredPrefix(s: seq<Submission>, i: int)
    requires RankOrdered(s) && 0 <= i < |s|
    ensures s[i].score.Some? <==> i < CountScored(s)
  {
    if i > 0 {
      assert RankOrdered(s[1..]) by {
        forall a, b | 0 <= a < b < |s[1..]|
          ensures NotAfter(s[1..][a], s[1..][b])
        {
          assert s[1..][a] == s[a + 1] && s[1..][b] == s[b + 1];
        }
      }
      ScoredPrefix(s[1..], i - 1);
      assert NotAfter(s[0], s[i]);
    } else if s[0].score.None? {
      NoneScoredAfterNone(s);
    }
  }

  lemma {:induction false} NoneScoredAfterNone(s: seq<Submission>)
    requires RankOrdered(s) && s != [] && s[0].score.None?
    ensures CountScored(s) == 0
    decreases |s|
  {
    if |s| > 1 {
      assert NotAfter(s[0], s[1]);
      assert RankOrdered(s[1..]) by {
        forall a, b | 0 <= a < b < |s[1..]|
          ensures NotAfter(s[1..][a], s[1..][b])
        {
          assert s[1..][a] == s[a + 1] && s[1..][b] == s[b + 1];
        }
      }
      NoneScoredAfterNone(s[1..]);
    }
  }

  /** The shown ranks are exactly 1, 2, ..., the number of scored participants. */
  lemma RanksAreConsecutive(subs: seq<Submission>, i: int)
    requires 0 <= i < |Ranked(subs)|
    ensures RankCell(Ranked(subs), i).Some? <==> i < CountScored(Ranked(subs))
  {
    ScoredPrefix(Ranked(subs), i);
  }
}
