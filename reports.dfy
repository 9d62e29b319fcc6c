/** The administrator's reports: per-exam performance (grouping graded
    submissions by exam), teacher activity, and the hardest questions. The
    database and identity-provider queries are inputs. */
module Reports {
  import opened Common
  import Sorting

  // ---------------------------------------------------------------------------
  // Exam performance

  /** The exam a graded submission belongs to, with its author's names. */
  datatype ExamInfo = ExamInfo(id: int, title: string, authorFirstName: Option<string>, authorLastName: Option<string>)

  /** A graded submission; `exam` is `None` when the relation is missing. */
  datatype GradedSubmission = GradedSubmission(score: real, exam: Option<ExamInfo>)

  /** `` `${first || ''} ${last || ''}`.trim() || 'N/A' ``. */
  function AuthorName(first: Option<string>, last: Option<string>): (name: string)
    ensures name != ""
    ensures name == "N/A" <==> Trim(OrEmpty(first) + " " + OrEmpty(last)) in {"", "N/A"}
    ensures name != "N/A" ==> name == Trim(OrEmpty(first) + " " + OrEmpty(last))
  {
    var full := Trim(OrEmpty(first) + " " + OrEmpty(last));
    if full == "" then "N/A" else full
  }

  /** A name made only of blanks gives 'N/A'. */
  lemma BlankAuthorIsNA(first: Option<string>, last: Option<string>)
    requires AllWhitespace(OrEmpty(first)) && AllWhitespace(OrEmpty(last))
    ensures AuthorName(first, last) == "N/A"
  {
    TrimEmptyIffBlank(OrEmpty(first) + " " + OrEmpty(last));
  }

  /** One map entry: the exam's title and author (from its first submission)
      and its scores in submission order. */
  datatype Group = Group(title: string, authorName: string, scores: seq<real>)

  /** The map together with its insertion order. */
  datatype GroupTable = GroupTable(keys: seq<int>, groups: map<int, Group>)

  /** The loop body for one submission. */
  function AddSubmission(t: GroupTable, s: GradedSubmission): GroupTable {
    match s.exam
    case None => t
    case Some(e) =>
      var t' := if e.id in t.groups then t
                else GroupTable(t.keys + [e.id], t.groups[e.id := Group(e.title, AuthorName(e.authorFirstName, e.authorLastName), [])]);
      GroupTable(t'.keys, t'.groups[e.id := t'.groups[e.id].(scores := t'.groups[e.id].scores + [s.score])])
  }

  /** The table after the loop has seen `subs`. */
  function Grouped(subs: seq<GradedSubmission>): GroupTable
    decreases |subs|
  {
    if subs == [] then GroupTable([], map[])
    else AddSubmission(Grouped(subs[..|subs| - 1]), subs[|subs| - 1])
  }

  /** The scores of the submissions of exam `id`, in order. */
  function ScoresOf(subs: seq<GradedSubmission>, id: int): seq<real>
    decreases |subs|
  {
    if subs == [] then []
    else
      var last := subs[|subs| - 1];
      ScoresOf(subs[..|subs| - 1], id) + (if last.exam.Some? && last.exam.value.id == id then [last.score] else [])
  }

  /** The first submission of exam `id`, if any. */
  function FirstOf(subs: seq<GradedSubmission>, id: int): Option<ExamInfo>
    decreases |subs|
  {
    if subs == [] then None
    else
      var first := FirstOf(subs[..|subs| - 1], id);
      var last := subs[|subs| - 1];
      if first.None? && last.exam.Some? && last.exam.value.id == id then last.exam else first
  }

  /** Keys are distinct and are exactly the map's keys. */
  ghost predicate WellFormed(t: GroupTable) {
    && (forall i, j :: 0 <= i < j < |t.keys| ==> t.keys[i] != t.keys[j])
    && (forall i :: 0 <= i < |t.keys| ==> t.keys[i] in t.groups)
    && (forall k :: k in t.groups ==> k in t.keys)
  }

  /** The loop keeps the key order in step with the map. */
  lemma {:induction false} GroupedWellFormed(subs: seq<GradedSubmission>)
    ensures WellFormed(Grouped(subs))
    decreases |subs|
  {
    if subs != [] {
      GroupedWellFormed(subs[..|subs| - 1]);
      AddSubmissionWellFormed(Grouped(subs[..|subs| - 1]), subs[|subs| - 1]);
    }
  }

  /** One loop step keeps the keys in step with the map. */
  lemma AddSubmissionWellFormed(t: GroupTable, s: GradedSubmission)
    requires WellFormed(t)
    ensures WellFormed(AddSubmission(t, s))
  {
    var r := AddSubmission(t, s);
    if s.exam.Some? {
      var id := s.exam.value.id;
      assert r.groups.Keys == t.groups.Keys + {id};
      if id in t.groups {
        assert r.keys == t.keys;
        SameKeysWellFormed(t, r.groups);
      } else {
        assert r.keys == t.keys + [id];
        NewKeyWellFormed(t, id, r.groups);
      }
    }
  }

  lemma SameKeysWellFormed(t: GroupTable, groups: map<int, Group>)
    requires WellFormed(t) && groups.Keys == t.groups.Keys
    ensures WellFormed(GroupTable(t.keys, groups))
  {
  }

  lemma NewKeyWellFormed(t: GroupTable, id: int, groups: map<int, Group>)
    requires WellFormed(t) && id !in t.groups && groups.Keys == t.groups.Keys + {id}
    ensures WellFormed(GroupTable(t.keys + [id], groups))
  {
    var keys := t.keys + [id];
    assert forall i :: 0 <= i < |t.keys| ==> keys[i] == t.keys[i];
    assert keys[|t.keys|] == id;
  }

  /** For one exam: it has an entry iff one of its submissions was seen; the
      entry's scores are that exam's scores in order (so its size is the
      exam's submission count); title and author come from the exam's first
      submission. Submissions without an exam are skipped. */
  lemma {:induction false} GroupedAt(subs: seq<GradedSubmission>, id: int)
    ensures id in Grouped(subs).groups <==> ScoresOf(subs, id) != []
    ensures FirstOf(subs, id).Some? <==> ScoresOf(subs, id) != []
    ensures id in Grouped(subs).groups ==>
      var g := Grouped(subs).groups[id];
      var e := FirstOf(subs, id).value;
      g.scores == ScoresOf(subs, id) && g.title == e.title
      && g.authorName == AuthorName(e.authorFirstName, e.authorLastName)
    decreases |subs|
  {
    if subs != [] {
      GroupedAt(subs[..|subs| - 1], id);
    }
  }

  /** `GroupedAt` for every exam at once. */
  lemma GroupedSpec(subs: seq<GradedSubmission>)
    ensures WellFormed(Grouped(subs))
    ensures forall id :: id in Grouped(subs).groups <==> ScoresOf(subs, id) != []
    ensures forall id :: id in Grouped(subs).groups ==> Grouped(subs).groups[id].scores == ScoresOf(subs, id)
  {
    GroupedWellFormed(subs);
    forall id
      ensures id in Grouped(subs).groups <==> ScoresOf(subs, id) != []
      ensures id in Grouped(subs).groups ==> Grouped(subs).groups[id].scores == ScoresOf(subs, id)
    {
      GroupedAt(subs, id);
    }
  }

  /** The grouping loop, on a mutable map with its key order. */
  method GroupByExam(subs: seq<GradedSubmission>) returns (keys: seq<int>, groups: map<int, Group>)
    ensures GroupTable(keys, groups) == Grouped(subs)
  {
    keys, groups := [], map[];
    var i := 0;
    while i < |subs|
      invariant 0 <= i <= |subs|
      invariant GroupTable(keys, groups) == Grouped(subs[..i])
    {
      var sub := subs[i];
      assert subs[..i + 1][..i] == subs[..i];
      if sub.exam.Some? {
        var e := sub.exam.value;
        if e.id !in groups {
          keys := keys + [e.id];
          groups := groups[e.id := Group(e.title, AuthorName(e.authorFirstName, e.authorLastName), [])];
        }
        groups := groups[e.id := groups[e.id].(scores := groups[e.id].scores + [sub.score])];
      }
      i := i + 1;
    }
    assert subs[..i] == subs;
  }

  /** One row of the performance report. */
  datatype PerformanceStat = PerformanceStat(
    examId: int, examTitle: string, authorName: string,
    submissionCount: nat, averageScore: real, passRate: real)

  /** The pass mark. */
  const PassMark: real := 3.0

  function Sum(scores: seq<real>): real {
    if scores == [] then 0.0 else scores[0] + Sum(scores[1..])
  }

  ghost predicate AllPass(scores: seq<real>) {
    forall i :: 0 <= i < |scores| ==> scores[i] >= PassMark
  }

  ghost predicate NonePass(scores: seq<real>) {
    forall i :: 0 <= i < |scores| ==> scores[i] < PassMark
  }

  /** `scores.filter(score => score >= 3.0).length`. */
  function PassCount(scores: seq<real>): (n: nat)
    ensures n <= |scores|
    ensures n == |scores| <==> AllPass(scores)
    ensures n == 0 <==> NonePass(scores)
  {
    if scores == [] then 0
    else
      var n := (if scores[0] >= PassMark then 1 else 0) + PassCount(scores[1..]);
      assert AllPass(scores) <==> scores[0] >= PassMark && AllPass(scores[1..]);
      assert NonePass(scores) <==> scores[0] < PassMark && NonePass(scores[1..]);
      n
  }

  /** `x` reports `scores`: their number, their mean and the percentage of
      them at or above the pass mark. */
  ghost predicate Summarises(x: PerformanceStat, scores: seq<real>) {
    && x.submissionCount == |scores| > 0
    && x.averageScore == Mean(Sum(scores), |scores| as real)
    && x.passRate == Percent(PassCount(scores) as real, |scores| as real)
  }

  /** The row for one non-empty group. */
  function StatOf(id: int, g: Group): (r: PerformanceStat)
    requires |g.scores| > 0
    ensures r.examId == id && r.examTitle == g.title && r.authorName == g.authorName
    ensures Summarises(r, g.scores)
  {
    var n := |g.scores| as real;
    PerformanceStat(id, g.title, g.authorName, |g.scores|,
      Mean(Sum(g.scores), n), Percent(PassCount(g.scores) as real, n))
  }

  /** `total / n`, the mean of `n` values summing to `total`. */
  function Mean(total: real, n: real): (m: real)
    requires n > 0.0
    ensures m * n == total
  {
    total / n
  }

  /** `p / n * 100`, the percentage `p` out of `n` is. */
  function Percent(p: real, n: real): (r: real)
    requires 0.0 <= p <= n && n > 0.0
    ensures r * n == 100.0 * p
    ensures 0.0 <= r <= 100.0
  {
    var q := p / n;
    assert q * n == p;
    assert q <= 1.0;
    q * 100.0
  }

  /** The pass rate is 100 exactly when every score passes and 0 exactly when
      none does. */
  lemma PassRateExtremes(id: int, g: Group)
    requires |g.scores| > 0
    ensures StatOf(id, g).passRate == 100.0 <==> AllPass(g.scores)
    ensures StatOf(id, g).passRate == 0.0 <==> NonePass(g.scores)
  {
    var rate := StatOf(id, g).passRate;
    var n := |g.scores| as real;
    var p := PassCount(g.scores) as real;
    assert rate * n == 100.0 * p;
    if rate == 100.0 {
      FactorCancels(p, 100.0, n);
    }
    if AllPass(g.scores) {
      FactorCancels(rate, 100.0, n);
    }
    if rate == 0.0 {
      FactorCancels(p, 0.0, n);
    }
    if NonePass(g.scores) {
      FactorCancels(rate, 0.0, n);
    }
  }

  /** A positive common factor cancels. */
  lemma FactorCancels(a: real, b: real, n: real)
    requires n > 0.0
    ensures a * n == b * n <==> a == b
  {
    if a * n == b * n {
      assert (a - b) * n == 0.0;
    }
  }

  /** The rows in map order, skipping empty groups. */
  function Rows(keys: seq<int>, groups: map<int, Group>): seq<PerformanceStat>
    requires forall i :: 0 <= i < |keys| ==> keys[i] in groups
  {
    if keys == [] then []
    else
      var g := groups[keys[0]];
      (if |g.scores| == 0 then [] else [StatOf(keys[0], g)]) + Rows(keys[1..], groups)
  }

  /** The results loop over the map's entries. */
  method BuildRows(keys: seq<int>, groups: map<int, Group>) returns (results: seq<PerformanceStat>)
    requires forall i :: 0 <= i < |keys| ==> keys[i] in groups
    ensures results == Rows(keys, groups)
  {
    results := [];
    var i := 0;
    while i < |keys|
      invariant 0 <= i <= |keys|
      invariant results + Rows(keys[i..], groups) == Rows(keys, groups)
    {
      var data := groups[keys[i]];
      assert keys[i..][1..] == keys[i + 1..];
      assert Rows(keys[i..], groups)
        == (if |data.scores| == 0 then [] else [StatOf(keys[i], data)]) + Rows(keys[i + 1..], groups);
      if |data.scores| != 0 {
        results := results + [StatOf(keys[i], data)];
      }
      i := i + 1;
    }
  }

  /** When no listed group is empty, every key gets its row, in order. */
  lemma {:induction false} RowsOfNonEmpty(keys: seq<int>, groups: map<int, Group>)
    requires forall i :: 0 <= i < |keys| ==> keys[i] in groups && |groups[keys[i]].scores| > 0
    ensures |Rows(keys, groups)| == |keys|
    ensures forall i :: 0 <= i < |keys| ==> Rows(keys, groups)[i] == StatOf(keys[i], groups[keys[i]])
  {
    if keys != [] {
      RowsOfNonEmpty(keys[1..], groups);
    }
  }

  /** The rows the results loop builds from the grouped table. */
  function ExamRows(subs: seq<GradedSubmission>): seq<PerformanceStat> {
    GroupedWellFormed(subs);
    Rows(Grouped(subs).keys, Grouped(subs).groups)
  }

  /** One row per exam that has a graded submission, each exam once, with its
      submission and pass counts. */
  lemma ExamRowsSpec(subs: seq<GradedSubmission>)
    ensures forall i, j :: 0 <= i < j < |ExamRows(subs)| ==> ExamRows(subs)[i].examId != ExamRows(subs)[j].examId
    ensures forall x :: x in ExamRows(subs) ==> Summarises(x, ScoresOf(subs, x.examId))
    ensures forall id :: ScoresOf(subs, id) != [] <==> exists x :: x in ExamRows(subs) && x.examId == id
  {
    var t := Grouped(subs);
    GroupedSpec(subs);
    RowsOfNonEmpty(t.keys, t.groups);
    var rows := ExamRows(subs);
    forall i | 0 <= i < |rows|
      ensures rows[i].examId == t.keys[i]
      ensures Summarises(rows[i], ScoresOf(subs, t.keys[i]))
    {
      ExamRowAt(subs, i);
    }
    forall id
      ensures ScoresOf(subs, id) != [] <==> exists x :: x in rows && x.examId == id
    {
      if ScoresOf(subs, id) != [] {
        var i :| 0 <= i < |t.keys| && t.keys[i] == id;
        assert rows[i] in rows;
      }
    }
  }

  /** Row `i` is the summary of the `i`-th exam in the table's key order. */
  lemma ExamRowAt(subs: seq<GradedSubmission>, i: int)
    requires 0 <= i < |Grouped(subs).keys|
    ensures |ExamRows(subs)| == |Grouped(subs).keys|
    ensures ExamRows(subs)[i].examId == Grouped(subs).keys[i]
    ensures Summarises(ExamRows(subs)[i], ScoresOf(subs, Grouped(subs).keys[i]))
  {
    var t := Grouped(subs);
    GroupedSpec(subs);
    RowsOfNonEmpty(t.keys, t.groups);
    var id := t.keys[i];
    assert ExamRows(subs)[i] == StatOf(id, t.groups[id]);
    assert t.groups[id].scores == ScoresOf(subs, id);
  }

  function AverageKey(s: PerformanceStat): real {
    s.averageScore
  }

  /** `getEvaluationPerformanceStats` after the query: group, build the rows,
      and sort them by average score, lowest first. */
  method PerformanceStats(subs: seq<GradedSubmission>) returns (r: seq<PerformanceStat>)
    ensures multiset(r) == multiset(ExamRows(subs))
    ensures Sorting.SortedBy(r, AverageKey)
  {
    var keys, groups := GroupByExam(subs);
    GroupedWellFormed(subs);
    var rows := BuildRows(keys, groups);
    r := Sorting.SortBy(rows, AverageKey);
  }

  /** The report lists exactly the exams that have graded submissions, each
      row summarising that exam's own scores. */
  lemma PerformanceReportCoverage(subs: seq<GradedSubmission>, r: seq<PerformanceStat>)
    requires multiset(r) == multiset(ExamRows(subs))
    ensures forall id :: ScoresOf(subs, id) != [] <==> exists x :: x in r && x.examId == id
    ensures forall x :: x in r ==> Summarises(x, ScoresOf(subs, x.examId))
  {
    ExamRowsSpec(subs);
    forall x
      ensures x in r <==> x in ExamRows(subs)
    {
      assert x in r <==> x in multiset(r);
      assert x in ExamRows(subs) <==> x in multiset(ExamRows(subs));
    }
  }

  // ---------------------------------------------------------------------------
  // Teacher activity

  /** An identity-provider account: its id, role claim, names and e-mail addresses. */
  datatype ClerkUser = ClerkUser(id: string, role: Option<string>, firstName: Option<string>, lastName: Option<string>, emails: seq<string>)

  /** A user row of the database. */
  datatype DbUser = DbUser(dbId: int, clerkId: string, evaluationLimit: int, firstName: Option<string>, lastName: Option<string>)

  /** An author id with its number of exams. */
  datatype AuthorCount = AuthorCount(authorId: int, count: int)

  datatype TeacherActivity = TeacherActivity(
    id: string, dbId: int, firstName: Option<string>, lastName: Option<string>,
    email: string, evaluationCount: int, evaluationLimit: int)

  /** `new Map(rows.map(...)).get(key)`: the last row with the key wins. */
  function DbUserFor(dbUsers: seq<DbUser>, clerkId: string): (r: Option<DbUser>)
    ensures r.Some? ==> r.value in dbUsers && r.value.clerkId == clerkId
    ensures r.None? <==> forall u :: u in dbUsers ==> u.clerkId != clerkId
  {
    if dbUsers == [] then None
    else
      var last := dbUsers[|dbUsers| - 1];
      if last.clerkId == clerkId then Some(last)
      else
        var r := DbUserFor(dbUsers[..|dbUsers| - 1], clerkId);
        assert forall u :: u in dbUsers ==> u in dbUsers[..|dbUsers| - 1] || u == last;
        r
  }

  /** `countsMap.get(id) || 0`: the count of an entry for the author (the
      last one, as the map keeps it), or 0 when there is none. */
  function CountFor(counts: seq<AuthorCount>, dbId: int): (n: int)
    ensures (forall c :: c in counts ==> c.authorId != dbId) ==> n == 0
    ensures (exists c :: c in counts && c.authorId == dbId) ==>
      exists c :: c in counts && c.authorId == dbId && c.count == n
  {
    if counts == [] then 0
    else
      var last := counts[|counts| - 1];
      if last.authorId == dbId then last.count
      else
        assert forall c :: c in counts ==> c in counts[..|counts| - 1] || c == last;
        CountFor(counts[..|counts| - 1], dbId)
  }

  predicate IsTeacher(u: ClerkUser) {
    u.role == Some("TEACHER")
  }

  /** The row for one account, `None` when it has no database record. */
  function ActivityOf(u: ClerkUser, dbUsers: seq<DbUser>, counts: seq<AuthorCount>): Option<TeacherActivity> {
    match DbUserFor(dbUsers, u.id)
    case None => None
    case Some(db) =>
      Some(TeacherActivity(u.id, db.dbId, OrElse(db.firstName, u.firstName), OrElse(db.lastName, u.lastName),
                           if u.emails == [] then "" else u.emails[0], CountFor(counts, db.dbId), db.evaluationLimit))
  }

  /** The filter, map and null-filter steps, before sorting. */
  function Activities(users: seq<ClerkUser>, dbUsers: seq<DbUser>, counts: seq<AuthorCount>): (r: seq<TeacherActivity>)
    ensures forall t :: t in r <==> exists u :: u in users && IsTeacher(u) && ActivityOf(u, dbUsers, counts) == Some(t)
  {
    if users == [] then []
    else
      var u := users[0];
      var here := if IsTeacher(u) && ActivityOf(u, dbUsers, counts).Some? then [ActivityOf(u, dbUsers, counts).value] else [];
      var rest := Activities(users[1..], dbUsers, counts);
      assert forall v :: v in users <==> v == u || v in users[1..];
      here + rest
  }

  function NegatedCount(t: TeacherActivity): real {
    -(t.evaluationCount as real)
  }

  /** `getTeacherActivityStats` after the queries: teachers with a database
      record, most active first. */
  function TeacherActivityStats(users: seq<ClerkUser>, dbUsers: seq<DbUser>, counts: seq<AuthorCount>): (r: seq<TeacherActivity>)
    ensures multiset(r) == multiset(Activities(users, dbUsers, counts))
    ensures forall i, j :: 0 <= i < j < |r| ==> r[i].evaluationCount >= r[j].evaluationCount
  {
    var r := Sorting.SortBy(Activities(users, dbUsers, counts), NegatedCount);
    assert forall i, j :: 0 <= i < j < |r| ==> NegatedCount(r[i]) <= NegatedCount(r[j]);
    r
  }

  /** Each listed teacher is a TEACHER account with a database record, shows
      the database names when present, the first e-mail address or '', and 0
      exams when none is counted; every such account is listed. */
  lemma TeacherActivityRows(users: seq<ClerkUser>, dbUsers: seq<DbUser>, counts: seq<AuthorCount>, t: TeacherActivity)
    ensures t in TeacherActivityStats(users, dbUsers, counts) <==>
      exists u :: u in users && IsTeacher(u) && ActivityOf(u, dbUsers, counts) == Some(t)
    ensures t in TeacherActivityStats(users, dbUsers, counts) ==>
      exists u, db :: u in users && IsTeacher(u) && db in dbUsers && db.clerkId == u.id
        && t.id == u.id && t.dbId == db.dbId
        && t.firstName == OrElse(db.firstName, u.firstName)
        && t.lastName == OrElse(db.lastName, u.lastName)
        && t.email == (if u.emails == [] then "" else u.emails[0])
        && t.evaluationCount == CountFor(counts, db.dbId)
        && t.evaluationLimit == db.evaluationLimit
  {
    var r := TeacherActivityStats(users, dbUsers, counts);
    assert t in r <==> t in multiset(r);
    assert t in Activities(users, dbUsers, counts) <==> t in multiset(Activities(users, dbUsers, counts));
    if t in r {
      var u :| u in users && IsTeacher(u) && ActivityOf(u, dbUsers, counts) == Some(t);
      var db := DbUserFor(dbUsers, u.id).value;
      assert db in dbUsers && db.clerkId == u.id;
    }
  }

  // ---------------------------------------------------------------------------
  // Difficult questions

  /** One grouped row: a question, its number of graded answers and their mean. */
  datatype Aggregate = Aggregate(questionId: int, answerCount: int, averageScore: Option<real>)

  datatype QuestionDetail = QuestionDetail(id: int, text: string, examTitle: string)

  datatype DifficultQuestion = DifficultQuestion(questionId: int, questionText: string, examTitle: string, answerCount: int, averageScore: real)

  function DetailFor(questions: seq<QuestionDetail>, id: int): (r: Option<QuestionDetail>)
    ensures r.Some? ==> r.value in questions && r.value.id == id
    ensures r.None? <==> forall q :: q in questions ==> q.id != id
  {
    if questions == [] then None
    else
      var last := questions[|questions| - 1];
      if last.id == id then Some(last)
      else
        var r := DetailFor(questions[..|questions| - 1], id);
        assert forall q :: q in questions ==> q in questions[..|questions| - 1] || q == last;
        r
  }

  function DifficultRow(a: Aggregate, questions: seq<QuestionDetail>): (r: DifficultQuestion)
    ensures r.questionId == a.questionId && r.answerCount == a.answerCount
    ensures DetailFor(questions, a.questionId).None? ==>
      r.questionText == "Pregunta no encontrada" && r.examTitle == "Evaluación no encontrada"
    ensures DetailFor(questions, a.questionId).Some? ==>
      r.questionText == DetailFor(questions, a.questionId).value.text
      && r.examTitle == DetailFor(questions, a.questionId).value.examTitle
    ensures r.averageScore == if a.averageScore.Some? then a.averageScore.value else 0.0
  {
    var d := DetailFor(questions, a.questionId);
    DifficultQuestion(a.questionId,
      if d.Some? then d.value.text else "Pregunta no encontrada",
      if d.Some? then d.value.examTitle else "Evaluación no encontrada",
      a.answerCount,
      if a.averageScore.Some? then a.averageScore.value else 0.0)
  }

  /** `getMostDifficultQuestions` after the queries: an empty aggregate gives
      [] at once; otherwise one row per aggregate, in the aggregate's order. */
  function DifficultQuestions(aggregates: seq<Aggregate>, questions: seq<QuestionDetail>): (r: seq<DifficultQuestion>)
    ensures |r| == |aggregates|
    ensures forall i :: 0 <= i < |r| ==> r[i] == DifficultRow(aggregates[i], questions)
  {
    if aggregates == [] then []
    else [DifficultRow(aggregates[0], questions)] + DifficultQuestions(aggregates[1..], questions)
  }
}
