/**
 * What each test table of a test case holds, as functions of the
 * specification, the random stream and the identifiers of the test case:
 * the roles, the identifiers the tables print, the rows of the five role
 * builders, and create_test_tables, which builds them in a fixed order.
 */
module TableRows {
  import opened Wrappers
  import opened Errors
  import opened Numbers
  import opened Xml
  import opened Selection
  import opened ProductSpecs

  // ---------------------------------------------------------------------------
  //  Roles
  // ---------------------------------------------------------------------------

  /** The role a test table plays; each names a fixture of the suite. */
  datatype Role = CreateSubmission | AnswerQuestions | UpdateDwelling | CreateCoverages | QuoteIssue

  /** The order in which create_test_tables builds the tables. */
  const Roles: seq<Role> := [CreateSubmission, AnswerQuestions, UpdateDwelling, CreateCoverages, QuoteIssue]

  lemma RolesInOrder()
    ensures |Roles| == 5 && Roles[0] == CreateSubmission && Roles[4] == QuoteIssue
    ensures forall i, j | 0 <= i < j < |Roles| :: Roles[i] != Roles[j]
  {
  }

  /** The role string a fixture is looked up by. */
  function RoleName(role: Role): string {
    match role
    case CreateSubmission => "CreateSubmission"
    case AnswerQuestions => "AnswerQuestions"
    case UpdateDwelling => "UpdateDwelling"
    case CreateCoverages => "CreateCoverages"
    case QuoteIssue => "QuoteIssue"
  }

  /** The two-letter abbreviation that ends the role's test id. */
  function Abbreviation(role: Role): string {
    match role
    case CreateSubmission => "CS"
    case AnswerQuestions => "AQ"
    case UpdateDwelling => "UD"
    case CreateCoverages => "CC"
    case QuoteIssue => "QI"
  }

  /** The H2 title above the table. */
  function Title(role: Role): string {
    match role
    case CreateSubmission => "Create Submission"
    case AnswerQuestions => "Create Answers to Pre-Qualificaton Questions"
    case UpdateDwelling => "Update Dwelling"
    case CreateCoverages => "Create Coverages"
    case QuoteIssue => "Quote and Issue"
  }

  /** Column fixtures have a heading row and number their data rows; CreateCoverages is an action fixture. */
  predicate IsColumn(role: Role) {
    !role.CreateCoverages?
  }

  /**
   * Every role passes the checks of the role and role_abbreviation setters,
   * and no two roles share a name or an abbreviation.
   */
  lemma RolesAreWellFormed(a: Role, b: Role)
    ensures |RoleName(a)| > 0 && |Abbreviation(a)| == 2
    ensures RoleName(a) == RoleName(b) ==> a == b
    ensures Abbreviation(a) == Abbreviation(b) ==> a == b
  {
  }

  // ---------------------------------------------------------------------------
  //  Identifiers
  // ---------------------------------------------------------------------------

  /** public_id: suite id, test case number and role abbreviation, joined by '-'. */
  function PublicId(suiteId: string, number: string, role: Role): string {
    suiteId + "-" + number + "-" + Abbreviation(role)
  }

  /** test_id */
  function TestId(suiteId: string, number: string, role: Role): string {
    "TEST-" + PublicId(suiteId, number, role)
  }

  /** submission_id: it depends on the test case number only, not on the role. */
  function SubmissionId(number: string): string {
    "SUBMISSION-" + number
  }

  /** test_id + "-" + str(n): the id of a numbered data row, and of the n-th created coverage. */
  function RowId(testId: string, n: int): string {
    testId + "-" + IntToString(n)
  }

  /** The tables of one test case have test ids that differ exactly in their last two letters. */
  lemma {:induction false} TestIdsDistinguishRoles(suiteId: string, number: string, a: Role, b: Role)
    ensures |TestId(suiteId, number, a)| == |TestId(suiteId, number, b)|
    ensures TestId(suiteId, number, a)[..|TestId(suiteId, number, a)| - 2] == TestId(suiteId, number, b)[..|TestId(suiteId, number, b)| - 2]
    ensures TestId(suiteId, number, a) == TestId(suiteId, number, b) <==> a == b
  {
    var ta := TestId(suiteId, number, a);
    var tb := TestId(suiteId, number, b);
    var stem := "TEST-" + suiteId + "-" + number + "-";
    assert ta == stem + Abbreviation(a) && tb == stem + Abbreviation(b);
    assert ta[..|ta| - 2] == stem && tb[..|tb| - 2] == stem;
    assert ta[|ta| - 2..] == Abbreviation(a) && tb[|tb| - 2..] == Abbreviation(b);
    RolesAreWellFormed(a, b);
  }

  /** Data rows of one table get different ids. */
  lemma RowIdsDiffer(testId: string, m: int, n: int)
    requires m != n
    ensures RowId(testId, m) != RowId(testId, n)
  {
    if RowId(testId, m) == RowId(testId, n) {
      var p := testId + "-";
      assert RowId(testId, m)[|p|..] == IntToString(m);
      assert RowId(testId, n)[|p|..] == IntToString(n);
      IntToStringInjective(m, n);
    }
  }

  // ---------------------------------------------------------------------------
  //  Rows
  // ---------------------------------------------------------------------------

  /** A tr element: the text of each td, and whether the td carries class "unique". */
  datatype Row = Row(cells: seq<string>, unique: seq<bool>)

  /**
   * The row add_row appends: one cell per value, a cell marked unique
   * exactly where is_unique says so, and none when is_unique is None.
   */
  function RowOf(values: seq<string>, isUnique: Option<seq<bool>>): (r: Row)
    requires isUnique.Some? ==> |isUnique.value| == |values|
    ensures r.cells == values && |r.unique| == |values|
  {
    Row(values, if isUnique.None? then seq(|values|, i => false) else isUnique.value)
  }

  /** A cell is marked unique exactly where is_unique says so; without is_unique none is. */
  lemma RowOfUnique(values: seq<string>, isUnique: Option<seq<bool>>, i: nat)
    requires isUnique.Some? ==> |isUnique.value| == |values|
    requires i < |values|
    ensures RowOf(values, isUnique).unique[i] <==> isUnique.Some? && isUnique.value[i]
  {
  }

  /** add_fixture: a one-cell row naming the fixture class. */
  function FixtureRow(fixture: string): Row {
    RowOf([fixture], None)
  }

  /** The headings each column table starts with (UpdateDwelling extends its own). */
  function InitialHeadings(role: Role): seq<string> {
    match role
    case CreateSubmission => ["TestId", "Submission ID", "Account Number", "Submission Date", "Valid()"]
    case AnswerQuestions => ["TestId", "Submission ID", "Question Set Code", "Question Code", "Answer", "Valid()"]
    case UpdateDwelling => ["TestId", "Submission ID"]
    case CreateCoverages => []
    case QuoteIssue => ["TestId", "Submission ID", "Quote()", "Issue()"]
  }

  /** The uniqueness flags that go with the initial headings: only Submission ID is unique. */
  function InitialUnique(role: Role): (r: seq<bool>)
    ensures |r| == |InitialHeadings(role)|
    ensures forall i | 0 <= i < |r| :: r[i] <==> InitialHeadings(role)[i] == "Submission ID"
  {
    match role
    case CreateSubmission => [false, true, false, false, false]
    case AnswerQuestions => [false, true, false, false, false, false]
    case UpdateDwelling => [false, true]
    case CreateCoverages => []
    case QuoteIssue => [false, true, false, false]
  }

  /** set_property: ["set", name, value, ""], the first cell unique on request. */
  function SetRow(name: string, value: string, unique: bool): Row {
    RowOf(["set", name, value, ""], Some([unique, false, false, false]))
  }

  /** select_submission */
  function SelectSubmissionRow(submissionId: string): Row {
    RowOf(["select", "submission", submissionId, ""], Some([true, false, false, false]))
  }

  /** select_coverable */
  function SelectCoverableRow(name: string): Row {
    RowOf(["select", "coverable", name, ""], None)
  }

  /** create_coverage: the coverage's id is the test id and its number in the table. */
  function CreateRow(testId: string, count: int, code: string): Row {
    RowOf(["create", "coverage", RowId(testId, count), code], None)
  }

  /** add_with */
  function WithRow(termCode: string, value: string): Row {
    RowOf(["with", termCode, value, ""], None)
  }

  /** commit */
  function CommitRow(): Row {
    RowOf(["commit", "", "", ""], None)
  }

  /** A heading or a value as a cell: None renders empty. */
  function Cell(v: Option<string>): string {
    if v.Some? then v.value else ""
  }

  /** One cell per value, in order. */
  function Cells(values: seq<Option<string>>): (r: seq<string>)
    ensures |r| == |values|
    ensures forall i | 0 <= i < |values| :: r[i] == Cell(values[i])
  {
    seq(|values|, i requires 0 <= i < |values| => Cell(values[i]))
  }

  /** The cells of one value more end with that value's cell. */
  lemma CellsSnoc(values: seq<Option<string>>, i: nat)
    requires i < |values|
    ensures Cells(values[..i + 1]) == Cells(values[..i]) + [Cell(values[i])]
  {
    assert forall j | 0 <= j < i :: values[..i + 1][j] == values[..i][j];
  }

  /** n flags, all False. */
  function Falses(n: nat): (r: seq<bool>)
    ensures |r| == n && forall i | 0 <= i < n :: !r[i]
  {
    seq(n, i => false)
  }

  lemma FalsesSnoc(n: nat)
    ensures Falses(n + 1) == Falses(n) + [false]
  {
  }

  // ---------------------------------------------------------------------------
  //  CreateSubmission and QuoteIssue
  // ---------------------------------------------------------------------------

  /**
   * CreateSubmission: the fixture, the headings and one data row numbered 1
   * holding the account number and the submission date, in that draw order.
   */
  function CreateSubmissionRows(fixture: string, suiteId: string, number: string, root: Element, today: string, rng: Stream, pos: nat): (r: Res<(seq<Row>, nat)>)
    ensures r.Ok? ==> |r.value.0| == 3 && r.value.0[0] == FixtureRow(fixture) && |r.value.0[2].cells| == 5
    ensures r.Ok? ==> AccountNumberOf(root, rng, pos).Ok? && r.value.0[2].cells[2] == AccountNumberOf(root, rng, pos).value.0
    ensures r.Ok? ==> r.value.0[2].cells[0] == RowId(TestId(suiteId, number, CreateSubmission), 1) && r.value.0[2].cells[1] == SubmissionId(number)
  {
    var testId := TestId(suiteId, number, CreateSubmission);
    var account :- AccountNumberOf(root, rng, pos);
    var date :- SubmissionDateOf(root, today, rng, account.1);
    var data := RowOf([RowId(testId, 1), SubmissionId(number), account.0, date.0, "true"], None);
    Ok(([FixtureRow(fixture), RowOf(InitialHeadings(CreateSubmission), Some(InitialUnique(CreateSubmission))), data], date.1))
  }

  /** CreateSubmissionRows once the account number and the submission date are drawn. */
  lemma CreateSubmissionRowsOk(fixture: string, suiteId: string, number: string, root: Element, today: string, rng: Stream, pos: nat,
                               account: string, mid: nat, date: string, end: nat)
    requires AccountNumberOf(root, rng, pos) == Ok((account, mid))
    requires SubmissionDateOf(root, today, rng, mid) == Ok((date, end))
    ensures CreateSubmissionRows(fixture, suiteId, number, root, today, rng, pos)
      == Ok(([FixtureRow(fixture), RowOf(InitialHeadings(CreateSubmission), Some(InitialUnique(CreateSubmission))),
              RowOf([RowId(TestId(suiteId, number, CreateSubmission), 1), SubmissionId(number), account, date, "true"], None)], end))
  {
  }

  /** QuoteIssue: the fixture, the headings and one row asking for a quote and an issue. No draw. */
  function QuoteIssueRows(fixture: string, suiteId: string, number: string): seq<Row> {
    var data := RowOf([TestId(suiteId, number, QuoteIssue), SubmissionId(number), "true", "true"], None);
    [FixtureRow(fixture), RowOf(InitialHeadings(QuoteIssue), Some(InitialUnique(QuoteIssue))), data]
  }

  // ---------------------------------------------------------------------------
  //  AnswerQuestions
  // ---------------------------------------------------------------------------

  /** create_values for one question: row number n, the codes, and the answer chosen with one draw. */
  function QuestionValues(testId: string, submissionId: string, setCode: Option<string>, question: Element, n: int, rng: Stream, pos: nat): Res<(seq<string>, nat)> {
    var qa :- QuestionAnswer(question, rng, pos);
    Ok(([RowId(testId, n), submissionId, Cell(setCode), Cell(qa.0.0), Cell(qa.0.1), "true"], qa.1))
  }

  /**
   * A question row takes one draw and holds the row id for n, the
   * submission id, the set code, the question code, the chosen answer and "true".
   */
  lemma QuestionValuesShape(testId: string, submissionId: string, setCode: Option<string>, question: Element, n: int, rng: Stream, pos: nat)
    ensures var r := QuestionValues(testId, submissionId, setCode, question, n, rng, pos);
      && (r.Ok? ==> r.value.1 == pos + 1)
      && (r.Ok? ==> |r.value.0| == 6 && r.value.0[0] == RowId(testId, n) && r.value.0[5] == "true")
      && (r.Ok? ==> r.value.0[1] == submissionId && r.value.0[2] == Cell(setCode))
      && (r.Ok? ==> FetchText(question, "QuestionCode").Ok? && r.value.0[3] == Cell(FetchText(question, "QuestionCode").value))
      && (r.Ok? ==> ChosenValue(question, Some("Question"), "Answer", rng(pos)).Ok?
                    && r.value.0[4] == Cell(ChosenValue(question, Some("Question"), "Answer", rng(pos)).value))
      && (r.Err? <==> FetchText(question, "QuestionCode").Err? || ChosenValue(question, Some("Question"), "Answer", rng(pos)).Err?)
  {
  }

  /** One pass of process_question_set's loop: create_values, then the row add_row appends for them. */
  function QuestionRow(testId: string, submissionId: string, setCode: Option<string>, question: Element, n: int, rng: Stream, pos: nat): Res<(Row, nat)> {
    var values :- QuestionValues(testId, submissionId, setCode, question, n, rng, pos);
    Ok((RowOf(values.0, None), values.1))
  }

  /** The rows for questions k.. of one question set; `n` is the row number of question k. */
  function QuestionRows(testId: string, submissionId: string, setCode: Option<string>, questions: seq<Element>, k: nat, n: int, rng: Stream, pos: nat): Res<(seq<Row>, nat)>
    requires k <= |questions|
    decreases |questions| - k
  {
    if k == |questions| then Ok(([], pos))
    else
      var row :- QuestionRow(testId, submissionId, setCode, questions[k], n, rng, pos);
      var rest :- QuestionRows(testId, submissionId, setCode, questions, k + 1, n + 1, rng, row.1);
      Ok(([row.0] + rest.0, rest.1))
  }

  /**
   * The row create_values gives question q of a set whose code is `code`:
   * data row n, the set code, the question code and the answer that draw d
   * picks, six cells in all.
   */
  ghost function AnsweredRowFor(testId: string, submissionId: string, code: Option<string>, q: Element, n: int, d: Draw): Option<Row> {
    match (FetchText(q, "QuestionCode"), ChosenValue(q, Some("Question"), "Answer", d))
    case (Ok(questionCode), Ok(answer)) =>
      Some(RowOf([RowId(testId, n), submissionId, Cell(code), Cell(questionCode), Cell(answer), "true"], None))
    case _ => None
  }

  /** `row` is the answered row of question q, numbered n, for draw d. */
  ghost predicate AnsweredRow(row: Row, testId: string, submissionId: string, code: Option<string>, q: Element, n: int, d: Draw) {
    AnsweredRowFor(testId, submissionId, code, q, n, d) == Some(row)
  }

  /** A question's row takes one draw. */
  lemma QuestionRowNext(testId: string, submissionId: string, code: Option<string>, q: Element, n: int, rng: Stream, pos: nat)
    ensures QuestionRow(testId, submissionId, code, q, n, rng, pos).Ok? ==> QuestionRow(testId, submissionId, code, q, n, rng, pos).value.1 == pos + 1
  {
    QuestionValuesShape(testId, submissionId, code, q, n, rng, pos);
  }

  /** A question's row, once built, is its answered row for the draw at `pos`. */
  lemma QuestionRowAnswered(testId: string, submissionId: string, code: Option<string>, q: Element, n: int, rng: Stream, pos: nat)
    ensures QuestionRow(testId, submissionId, code, q, n, rng, pos).Ok? ==>
      QuestionRow(testId, submissionId, code, q, n, rng, pos).value.1 == pos + 1
      && AnsweredRow(QuestionRow(testId, submissionId, code, q, n, rng, pos).value.0, testId, submissionId, code, q, n, rng(pos))
  {
    QuestionValuesShape(testId, submissionId, code, q, n, rng, pos);
  }

  /** Questions k.. give one row each and take one draw each. */
  lemma {:induction false} QuestionRowsLength(testId: string, submissionId: string, code: Option<string>, questions: seq<Element>, k: nat, n: int, rng: Stream, pos: nat)
    requires k <= |questions|
    ensures var r := QuestionRows(testId, submissionId, code, questions, k, n, rng, pos);
      r.Ok? ==> |r.value.0| == |questions| - k && r.value.1 == pos + (|questions| - k)
    decreases |questions| - k
  {
    if k < |questions| {
      var row := QuestionRow(testId, submissionId, code, questions[k], n, rng, pos);
      if row.Ok? {
        var k1, n1, p1 := k + 1, n + 1, row.value.1;
        QuestionRowsLength(testId, submissionId, code, questions, k1, n1, rng, p1);
        QuestionRowsLengthStep(testId, submissionId, code, questions, k, n, rng, pos, k1, n1, p1);
      } else {
        QuestionRowsStep(testId, submissionId, code, questions, k, n, rng, pos);
      }
    }
  }

  lemma QuestionRowsLengthStep(testId: string, submissionId: string, code: Option<string>, questions: seq<Element>, k: nat, n: int, rng: Stream, pos: nat,
                               k1: nat, n1: int, p1: nat)
    requires k < |questions| && k1 == k + 1 && n1 == n + 1
    requires QuestionRow(testId, submissionId, code, questions[k], n, rng, pos).Ok?
    requires p1 == QuestionRow(testId, submissionId, code, questions[k], n, rng, pos).value.1
    requires var rest := QuestionRows(testId, submissionId, code, questions, k1, n1, rng, p1);
      rest.Ok? ==> |rest.value.0| == |questions| - k1 && rest.value.1 == p1 + (|questions| - k1)
    ensures var r := QuestionRows(testId, submissionId, code, questions, k, n, rng, pos);
      r.Ok? ==> |r.value.0| == |questions| - k && r.value.1 == pos + (|questions| - k)
  {
    QuestionRowsStep(testId, submissionId, code, questions, k, n, rng, pos);
    QuestionValuesShape(testId, submissionId, code, questions[k], n, rng, pos);
  }

  /*
   * The per-question lemmas below follow the rows of one question set whose
   * first row is numbered n0 + b and drawn at pos0 + b: question k of the
   * set is question c == b + k of the whole run, its row numbered n0 + c and
   * drawn at pos0 + c. Every lemma takes the next k and c as parameters, so
   * the recursive calls meet the very terms their callers hold.
   */

  /** After the first, the rows of questions k.. are those of questions k + 1.., taken from the next row number and the next draw. */
  lemma QuestionRowsRest(testId: string, submissionId: string, code: Option<string>, questions: seq<Element>, k: nat, n: int, rng: Stream, p: nat)
    requires k < |questions|
    requires QuestionRows(testId, submissionId, code, questions, k, n, rng, p).Ok?
    ensures QuestionRows(testId, submissionId, code, questions, k + 1, n + 1, rng, p + 1).Ok?
    ensures |QuestionRows(testId, submissionId, code, questions, k, n, rng, p).value.0|
      == |QuestionRows(testId, submissionId, code, questions, k + 1, n + 1, rng, p + 1).value.0| + 1
    ensures QuestionRows(testId, submissionId, code, questions, k, n, rng, p).value.0[1..]
      == QuestionRows(testId, submissionId, code, questions, k + 1, n + 1, rng, p + 1).value.0
  {
    QuestionRowsStep(testId, submissionId, code, questions, k, n, rng, p);
    QuestionRowNext(testId, submissionId, code, questions[k], n, rng, p);
    var row := QuestionRow(testId, submissionId, code, questions[k], n, rng, p).value;
    PrependOne(QuestionRows(testId, submissionId, code, questions, k, n, rng, p), row.0,
               QuestionRows(testId, submissionId, code, questions, k + 1, n + 1, rng, row.1));
  }

  /** A built result that is one row put before another result: that result is built too, and is the rest of it. */
  lemma PrependOne(whole: Res<(seq<Row>, nat)>, row: Row, rest: Res<(seq<Row>, nat)>)
    requires whole.Ok? && whole == Prepend([row], rest)
    ensures rest.Ok? && |whole.value.0| == |rest.value.0| + 1 && whole.value.0[1..] == rest.value.0
  {
  }

  /** Once the first row is dropped, the row at J - c is found at J - c1. */
  lemma RowsShift(rows: seq<Row>, rest: seq<Row>, c: int, c1: int, J: nat)
    requires c < J && c1 == c + 1 && |rows| == |rest| + 1 && rows[1..] == rest && J - c1 < |rest|
    ensures 0 <= J - c < |rows| && rows[J - c] == rest[J - c1]
  {
  }

  /** The rows of questions k.. start with question k's answered row. */
  lemma QuestionRowsHead(testId: string, submissionId: string, code: Option<string>, questions: seq<Element>, k: nat, n: int, rng: Stream, p: nat)
    requires k < |questions|
    requires QuestionRows(testId, submissionId, code, questions, k, n, rng, p).Ok?
    ensures 0 < |QuestionRows(testId, submissionId, code, questions, k, n, rng, p).value.0|
    ensures AnsweredRow(QuestionRows(testId, submissionId, code, questions, k, n, rng, p).value.0[0], testId, submissionId,
                        code, questions[k], n, rng(p))
  {
    QuestionRowsStep(testId, submissionId, code, questions, k, n, rng, p);
    QuestionRowAnswered(testId, submissionId, code, questions[k], n, rng, p);
  }

  /** Question J of the whole run, when it is question k of the set, has the first of the rows of questions k... */
  lemma QuestionRowsFirst(testId: string, submissionId: string, code: Option<string>, questions: seq<Element>, k: nat, n: int, rng: Stream, p: nat,
                          n0: int, pos0: int, b: nat, c: int, J: nat)
    requires k < |questions| && c == b + k && J == c && n == n0 + c && p == pos0 + c
    requires QuestionRows(testId, submissionId, code, questions, k, n, rng, p).Ok?
    ensures 0 <= J - c < |QuestionRows(testId, submissionId, code, questions, k, n, rng, p).value.0|
    ensures pos0 + J >= 0 && 0 <= J - b < |questions|
    ensures AnsweredRow(QuestionRows(testId, submissionId, code, questions, k, n, rng, p).value.0[J - c], testId, submissionId,
                        code, questions[J - b], n0 + J, rng(pos0 + J))
  {
    QuestionRowsHead(testId, submissionId, code, questions, k, n, rng, p);
    AnsweredRowSame(QuestionRows(testId, submissionId, code, questions, k, n, rng, p).value.0, 0, J - c, testId, submissionId, code,
                    questions[k], questions[J - b], n, n0 + J, rng(p), rng(pos0 + J));
  }

  /** Whether the row at i is an answered row depends on the row, the question, the number and the draw, however they are written. */
  lemma AnsweredRowSame(rows: seq<Row>, i: int, i': int, testId: string, submissionId: string, code: Option<string>,
                        q: Element, q': Element, n: int, n': int, d: Draw, d': Draw)
    requires 0 <= i < |rows| && i == i' && q == q' && n == n' && d == d'
    requires AnsweredRow(rows[i], testId, submissionId, code, q, n, d)
    ensures 0 <= i' < |rows| && AnsweredRow(rows[i'], testId, submissionId, code, q', n', d')
  {
  }

  /** Among the rows of questions k.., whole-run question J's is the answered row numbered n0 + J, chosen by draw pos0 + J. */
  lemma {:induction false} QuestionRowsFrom(testId: string, submissionId: string, code: Option<string>, questions: seq<Element>, k: nat, n: int, rng: Stream, p: nat,
                                           n0: int, pos0: int, b: nat, c: int, J: nat)
    requires k <= |questions| && c == b + k && c <= J < b + |questions| && n == n0 + c && p == pos0 + c
    requires QuestionRows(testId, submissionId, code, questions, k, n, rng, p).Ok?
    ensures 0 <= J - c < |QuestionRows(testId, submissionId, code, questions, k, n, rng, p).value.0|
    ensures pos0 + J >= 0 && 0 <= J - b < |questions|
    ensures AnsweredRow(QuestionRows(testId, submissionId, code, questions, k, n, rng, p).value.0[J - c], testId, submissionId,
                        code, questions[J - b], n0 + J, rng(pos0 + J))
    decreases J - c
  {
    if J == c {
      QuestionRowsFirst(testId, submissionId, code, questions, k, n, rng, p, n0, pos0, b, c, J);
    } else {
      var k1, n1, p1, c1 := k + 1, n + 1, p + 1, c + 1;
      QuestionRowsRest(testId, submissionId, code, questions, k, n, rng, p);
      QuestionRowsFrom(testId, submissionId, code, questions, k1, n1, rng, p1, n0, pos0, b, c1, J);
      RowsShift(QuestionRows(testId, submissionId, code, questions, k, n, rng, p).value.0,
                QuestionRows(testId, submissionId, code, questions, k1, n1, rng, p1).value.0, c, c1, J);
    }
  }

  /**
   * process_question_set gives every question of the set one row, in
   * order: when the set's rows start at row number n == n0 + b and draw
   * p == pos0 + b, the row at J - b is the answered row of question J - b,
   * numbered n0 + J, its answer chosen by draw pos0 + J.
   */
  lemma QuestionRowAt(testId: string, submissionId: string, code: Option<string>, questions: seq<Element>, n: int, rng: Stream, p: nat,
                      n0: int, pos0: int, b: nat, J: nat)
    requires b <= J < b + |questions| && n == n0 + b && p == pos0 + b
    requires QuestionRows(testId, submissionId, code, questions, 0, n, rng, p).Ok?
    ensures J - b < |QuestionRows(testId, submissionId, code, questions, 0, n, rng, p).value.0| && pos0 + J >= 0
    ensures AnsweredRow(QuestionRows(testId, submissionId, code, questions, 0, n, rng, p).value.0[J - b], testId, submissionId,
                        code, questions[J - b], n0 + J, rng(pos0 + J))
  {
    QuestionRowsFrom(testId, submissionId, code, questions, 0, n, rng, p, n0, pos0, b, b, J);
  }

  /** One question more: its row, numbered n, comes before those of the questions after it. */
  lemma QuestionRowsStep(testId: string, submissionId: string, setCode: Option<string>, questions: seq<Element>, k: nat, n: int, rng: Stream, pos: nat)
    requires k < |questions|
    ensures QuestionRow(testId, submissionId, setCode, questions[k], n, rng, pos).Err? ==>
      QuestionRows(testId, submissionId, setCode, questions, k, n, rng, pos) == Err(QuestionRow(testId, submissionId, setCode, questions[k], n, rng, pos).error)
    ensures QuestionRow(testId, submissionId, setCode, questions[k], n, rng, pos).Ok? ==>
      QuestionRows(testId, submissionId, setCode, questions, k, n, rng, pos)
      == Prepend([QuestionRow(testId, submissionId, setCode, questions[k], n, rng, pos).value.0],
                 QuestionRows(testId, submissionId, setCode, questions, k + 1, n + 1, rng, QuestionRow(testId, submissionId, setCode, questions[k], n, rng, pos).value.1))
  {
  }

  /** After the rows so far, a question whose row is built moves the remaining rows on by one question. */
  lemma QuestionRowsAdvance(testId: string, submissionId: string, setCode: Option<string>, questions: seq<Element>, k: nat, n: int, rng: Stream, pos: nat,
                            added: seq<Row>, row: Row, next: nat)
    requires k < |questions| && QuestionRow(testId, submissionId, setCode, questions[k], n, rng, pos) == Ok((row, next))
    ensures Prepend(added, QuestionRows(testId, submissionId, setCode, questions, k, n, rng, pos))
      == Prepend(added + [row], QuestionRows(testId, submissionId, setCode, questions, k + 1, n + 1, rng, next))
  {
    QuestionRowsStep(testId, submissionId, setCode, questions, k, n, rng, pos);
    PrependTwice(added, [row], QuestionRows(testId, submissionId, setCode, questions, k + 1, n + 1, rng, next));
  }

  /** A question whose row fails fails the remaining rows, whatever came before. */
  lemma QuestionRowsFail(testId: string, submissionId: string, setCode: Option<string>, questions: seq<Element>, k: nat, n: int, rng: Stream, pos: nat,
                         added: seq<Row>)
    requires k < |questions| && QuestionRow(testId, submissionId, setCode, questions[k], n, rng, pos).Err?
    ensures Prepend(added, QuestionRows(testId, submissionId, setCode, questions, k, n, rng, pos))
      == Err(QuestionRow(testId, submissionId, setCode, questions[k], n, rng, pos).error)
  {
    QuestionRowsStep(testId, submissionId, setCode, questions, k, n, rng, pos);
  }

  /** The row a method built for question k advances the rows or fails them. */
  lemma QuestionRowsTracked(testId: string, submissionId: string, setCode: Option<string>, questions: seq<Element>, k: nat, n: int, rng: Stream, pos: nat,
                            added: seq<Row>, row: Res<Row>, next: nat)
    requires k < |questions| && Tracks(row, next, QuestionRow(testId, submissionId, setCode, questions[k], n, rng, pos))
    ensures row.Err? ==> Prepend(added, QuestionRows(testId, submissionId, setCode, questions, k, n, rng, pos)) == Err(row.error)
    ensures row.Ok? ==>
              Prepend(added, QuestionRows(testId, submissionId, setCode, questions, k, n, rng, pos))
              == Prepend(added + [row.value], QuestionRows(testId, submissionId, setCode, questions, k + 1, n + 1, rng, next))
  {
    if row.Err? {
      TracksErr(row, next, QuestionRow(testId, submissionId, setCode, questions[k], n, rng, pos));
      QuestionRowsFail(testId, submissionId, setCode, questions, k, n, rng, pos, added);
    } else {
      TracksOk(row, next, QuestionRow(testId, submissionId, setCode, questions[k], n, rng, pos));
      QuestionRowsAdvance(testId, submissionId, setCode, questions, k, n, rng, pos, added, row.value, next);
    }
  }

  /** process_question_set: the set's code, then a row per question, numbered from n. */
  function QuestionSetBlock(testId: string, submissionId: string, questionSet: Element, n: int, rng: Stream, pos: nat): Res<(seq<Row>, nat)> {
    var code :- FetchText(questionSet, "QuestionSetCode");
    QuestionRows(testId, submissionId, code, Questions(questionSet), 0, n, rng, pos)
  }

  /** The number of the row after `rows`, when they are numbered from n. */
  function NextRowNumber(n: int, rows: seq<Row>): int {
    n + |rows|
  }

  /** A question set whose code is known holds the rows of its questions. */
  lemma QuestionSetBlockRows(testId: string, submissionId: string, questionSet: Element, n: int, rng: Stream, pos: nat, code: Option<string>)
    requires FetchText(questionSet, "QuestionSetCode") == Ok(code)
    ensures QuestionSetBlock(testId, submissionId, questionSet, n, rng, pos) == QuestionRows(testId, submissionId, code, Questions(questionSet), 0, n, rng, pos)
  {
  }

  /** The question rows of question sets k.., numbered on from `n` across the sets. */
  function QuestionSetRows(testId: string, submissionId: string, sets: seq<Element>, k: nat, n: int, rng: Stream, pos: nat): Res<(seq<Row>, nat)>
    requires k <= |sets|
    decreases |sets| - k
  {
    if k == |sets| then Ok(([], pos))
    else
      var here :- QuestionSetBlock(testId, submissionId, sets[k], n, rng, pos);
      var rest :- QuestionSetRows(testId, submissionId, sets, k + 1, NextRowNumber(n, here.0), rng, here.1);
      Ok((here.0 + rest.0, rest.1))
  }

  /** A question paired with the question set it belongs to. */
  datatype AskedQuestion = AskedQuestion(questionSet: Element, question: Element)

  /** The questions of question sets k.., each with its set, in document order. */
  function AllQuestions(sets: seq<Element>, k: nat): (r: seq<AskedQuestion>)
    requires k <= |sets|
    ensures |r| == QuestionCount(sets, k)
    decreases |sets| - k
  {
    if k == |sets| then []
    else InSet(sets[k], Questions(sets[k])) + AllQuestions(sets, k + 1)
  }

  /** Each question of `qs` paired with the set `questionSet`. */
  function InSet(questionSet: Element, qs: seq<Element>): (r: seq<AskedQuestion>)
    ensures |r| == |qs| && forall i | 0 <= i < |qs| :: r[i] == AskedQuestion(questionSet, qs[i])
  {
    seq(|qs|, i requires 0 <= i < |qs| => AskedQuestion(questionSet, qs[i]))
  }

  /** The row of an asked question: its set's code must be there, then it is the answered row; None otherwise. */
  ghost function AskedRowFor(testId: string, submissionId: string, a: AskedQuestion, n: int, d: Draw): Option<Row> {
    match FetchText(a.questionSet, "QuestionSetCode")
    case Ok(code) => AnsweredRowFor(testId, submissionId, code, a.question, n, d)
    case Err(_) => None
  }

  /** `row` is the row of asked question a, numbered n, for draw d. */
  ghost predicate AskedRow(row: Row, testId: string, submissionId: string, a: AskedQuestion, n: int, d: Draw) {
    AskedRowFor(testId, submissionId, a, n, d) == Some(row)
  }

  /** A question set gives one row per question and takes one draw per question. */
  lemma QuestionSetBlockLength(testId: string, submissionId: string, questionSet: Element, n: int, rng: Stream, pos: nat)
    ensures var r := QuestionSetBlock(testId, submissionId, questionSet, n, rng, pos);
      r.Ok? ==> |r.value.0| == |Questions(questionSet)| && r.value.1 == pos + |Questions(questionSet)|
  {
    var code := FetchText(questionSet, "QuestionSetCode");
    if code.Ok? {
      QuestionRowsLength(testId, submissionId, code.value, Questions(questionSet), 0, n, rng, pos);
    }
  }

  /** Set k adds its questions' rows and draws to those of the sets after it. */
  lemma QuestionSetRowsLengthStep(testId: string, submissionId: string, sets: seq<Element>, k: nat, n: int, rng: Stream, pos: nat, n1: int, p1: nat)
    requires k < |sets| && n1 == n + |Questions(sets[k])| && p1 == pos + |Questions(sets[k])|
    requires var rest := QuestionSetRows(testId, submissionId, sets, k + 1, n1, rng, p1);
      rest.Ok? ==> |rest.value.0| == QuestionCount(sets, k + 1) && rest.value.1 == p1 + QuestionCount(sets, k + 1)
    ensures var r := QuestionSetRows(testId, submissionId, sets, k, n, rng, pos);
      r.Ok? ==> |r.value.0| == QuestionCount(sets, k) && r.value.1 == pos + QuestionCount(sets, k)
  {
    if QuestionSetRows(testId, submissionId, sets, k, n, rng, pos).Ok? {
      QuestionSetRowsRest(testId, submissionId, sets, k, n, rng, pos, n1, p1);
    }
  }

  /** Question sets k.. give one row per question and take one draw per question. */
  lemma {:induction false} QuestionSetRowsLength(testId: string, submissionId: string, sets: seq<Element>, k: nat, n: int, rng: Stream, pos: nat)
    requires k <= |sets|
    ensures var r := QuestionSetRows(testId, submissionId, sets, k, n, rng, pos);
      r.Ok? ==> |r.value.0| == QuestionCount(sets, k) && r.value.1 == pos + QuestionCount(sets, k)
    decreases |sets| - k
  {
    if k < |sets| {
      var n1, p1 := n + |Questions(sets[k])|, pos + |Questions(sets[k])|;
      QuestionSetRowsLength(testId, submissionId, sets, k + 1, n1, rng, p1);
      QuestionSetRowsLengthStep(testId, submissionId, sets, k, n, rng, pos, n1, p1);
    }
  }

  /** The number of questions in the question sets before set k. */
  function QuestionsBefore(sets: seq<Element>, k: nat): nat
    requires k <= |sets|
  {
    if k == 0 then 0 else QuestionsBefore(sets, k - 1) + |Questions(sets[k - 1])|
  }

  /** The questions before set k + 1 are those before set k and those of set k. */
  lemma QuestionsBeforeNext(sets: seq<Element>, k: nat)
    requires k < |sets|
    ensures QuestionsBefore(sets, k + 1) == QuestionsBefore(sets, k) + |Questions(sets[k])|
  {
  }

  /** The questions before set k and those from set k on are all the questions. */
  lemma {:induction false} QuestionsBeforeTotal(sets: seq<Element>, k: nat)
    requires k <= |sets|
    ensures QuestionsBefore(sets, k) + QuestionCount(sets, k) == QuestionCount(sets, 0)
  {
    if k > 0 {
      QuestionsBeforeTotal(sets, k - 1);
    }
  }

  /** Later sets have at least as many questions before them. */
  lemma {:induction false} QuestionsBeforeMonotone(sets: seq<Element>, m: nat, k: nat)
    requires m <= k <= |sets|
    ensures QuestionsBefore(sets, m) <= QuestionsBefore(sets, k)
    decreases k - m
  {
    if m < k {
      QuestionsBeforeMonotone(sets, m, k - 1);
    }
  }

  /** An index past the leading `here` finds the element of the rest, shifted by |here|. */
  lemma IndexAfter<T>(here: seq<T>, rest: seq<T>, b: int, b1: int, J: int)
    requires b1 == b + |here| && b1 <= J < b1 + |rest|
    ensures 0 <= J - b < |here + rest| && (here + rest)[J - b] == rest[J - b1]
  {
  }

  /**
   * Question J of the whole document, counted from set m (whose questions
   * start at bm), is a question of set k (whose questions start at bk)
   * when J falls in set k's range.
   */
  lemma {:induction false} AllQuestionsIn(sets: seq<Element>, m: nat, k: nat, bm: nat, bk: nat, J: nat)
    requires m <= k < |sets| && bm == QuestionsBefore(sets, m) && bk == QuestionsBefore(sets, k) && bk <= J < bk + |Questions(sets[k])|
    ensures bm <= J && J - bm < |AllQuestions(sets, m)|
    ensures AllQuestions(sets, m)[J - bm] == AskedQuestion(sets[k], Questions(sets[k])[J - bk])
    decreases k - m
  {
    QuestionsBeforeMonotone(sets, m, k);
    var here := InSet(sets[m], Questions(sets[m]));
    assert AllQuestions(sets, m) == here + AllQuestions(sets, m + 1);
    if m < k {
      var m1, bm1 := m + 1, bm + |Questions(sets[m])|;
      QuestionsBeforeNext(sets, m);
      QuestionsBeforeMonotone(sets, m1, k);
      AllQuestionsIn(sets, m1, k, bm1, bk, J);
      IndexAfter(here, AllQuestions(sets, m1), bm, bm1, J);
    }
  }

  /** Question J of the whole document is question J - b of set k, when the b questions before set k come before it and J falls in set k. */
  lemma AllQuestionsAt(sets: seq<Element>, k: nat, b: nat, J: nat)
    requires k < |sets| && b == QuestionsBefore(sets, k) && b <= J < b + |Questions(sets[k])|
    ensures J < |AllQuestions(sets, 0)|
    ensures AllQuestions(sets, 0)[J] == AskedQuestion(sets[k], Questions(sets[k])[J - b])
  {
    assert QuestionsBefore(sets, 0) == 0;
    AllQuestionsIn(sets, 0, k, 0, b, J);
  }

  /** Built rows of question sets k.. are set k's block, then the rows of sets k + 1.. from where the block stopped. */
  lemma QuestionSetRowsSplit(testId: string, submissionId: string, sets: seq<Element>, k: nat, n: int, rng: Stream, pos: nat)
    requires k < |sets| && QuestionSetRows(testId, submissionId, sets, k, n, rng, pos).Ok?
    ensures QuestionSetBlock(testId, submissionId, sets[k], n, rng, pos).Ok?
    ensures QuestionSetRows(testId, submissionId, sets, k + 1, NextRowNumber(n, QuestionSetBlock(testId, submissionId, sets[k], n, rng, pos).value.0), rng,
                            QuestionSetBlock(testId, submissionId, sets[k], n, rng, pos).value.1).Ok?
    ensures QuestionSetRows(testId, submissionId, sets, k, n, rng, pos).value.0
      == QuestionSetBlock(testId, submissionId, sets[k], n, rng, pos).value.0
         + QuestionSetRows(testId, submissionId, sets, k + 1, NextRowNumber(n, QuestionSetBlock(testId, submissionId, sets[k], n, rng, pos).value.0), rng,
                           QuestionSetBlock(testId, submissionId, sets[k], n, rng, pos).value.1).value.0
  {
  }

  /** A row inside the leading block of `rows`. */
  lemma RowInBlock(rows: seq<Row>, block: seq<Row>, rest: seq<Row>, i: nat)
    requires rows == block + rest && i < |block|
    ensures i < |rows| && rows[i] == block[i]
  {
  }

  /** A row past the leading block of `rows`, which starts at b and ends before b1. */
  lemma RowAfterBlock(rows: seq<Row>, block: seq<Row>, rest: seq<Row>, b: nat, b1: nat, J: nat)
    requires rows == block + rest && b1 == b + |block| && b1 <= J && J - b1 < |rest|
    ensures J - b < |rows| && rows[J - b] == rest[J - b1]
  {
  }

  /** A question's answered row, under its set's code, is its asked row. */
  lemma AskedRowFromAnswered(row: Row, testId: string, submissionId: string, questionSet: Element, question: Element, code: Option<string>,
                             n: int, d: Draw)
    requires FetchText(questionSet, "QuestionSetCode") == Ok(code)
    requires AnsweredRow(row, testId, submissionId, code, question, n, d)
    ensures AskedRow(row, testId, submissionId, AskedQuestion(questionSet, question), n, d)
  {
  }

  /**
   * Inside a question set's block, which starts at row number n == n0 + b
   * and draw p == pos0 + b, question J - b of the set has the asked row at
   * J - b, numbered n0 + J, its answer chosen by draw pos0 + J.
   */
  lemma QuestionSetBlockAt(testId: string, submissionId: string, questionSet: Element, n: int, rng: Stream, p: nat,
                           n0: int, pos0: int, b: nat, J: nat)
    requires b <= J < b + |Questions(questionSet)| && n == n0 + b && p == pos0 + b
    requires QuestionSetBlock(testId, submissionId, questionSet, n, rng, p).Ok?
    ensures pos0 + J >= 0
    ensures J - b < |QuestionSetBlock(testId, submissionId, questionSet, n, rng, p).value.0|
    ensures AskedRow(QuestionSetBlock(testId, submissionId, questionSet, n, rng, p).value.0[J - b], testId, submissionId,
                     AskedQuestion(questionSet, Questions(questionSet)[J - b]), n0 + J, rng(pos0 + J))
  {
    var code := FetchText(questionSet, "QuestionSetCode").value;
    var qs := Questions(questionSet);
    QuestionSetBlockRows(testId, submissionId, questionSet, n, rng, p, code);
    QuestionRowAt(testId, submissionId, code, qs, n, rng, p, n0, pos0, b, J);
    AskedRowFromAnswered(QuestionRows(testId, submissionId, code, qs, 0, n, rng, p).value.0[J - b], testId, submissionId,
                         questionSet, qs[J - b], code, n0 + J, rng(pos0 + J));
  }

  /** The rows of question sets k.. depend on the sets, the row number and the draw position, however they are written. */
  lemma QuestionSetRowsSame(testId: string, submissionId: string, sets: seq<Element>, k: nat, n: int, n': int, rng: Stream, p: nat, p': nat)
    requires k <= |sets| && n == n' && p == p'
    ensures QuestionSetRows(testId, submissionId, sets, k, n, rng, p) == QuestionSetRows(testId, submissionId, sets, k, n', rng, p')
  {
  }

  /**
   * After question set k's block, the rows of sets k.. go on with those of
   * sets k + 1..: sets k.. start at row number n and draw p, sets k + 1.. at
   * n1 and p1, past set k's questions.
   */
  lemma QuestionSetRowsRest(testId: string, submissionId: string, sets: seq<Element>, k: nat, n: int, rng: Stream, p: nat, n1: int, p1: nat)
    requires k < |sets| && n1 == n + |Questions(sets[k])| && p1 == p + |Questions(sets[k])|
    requires QuestionSetRows(testId, submissionId, sets, k, n, rng, p).Ok?
    ensures QuestionSetBlock(testId, submissionId, sets[k], n, rng, p).Ok?
    ensures QuestionSetRows(testId, submissionId, sets, k + 1, n1, rng, p1).Ok?
    ensures |QuestionSetBlock(testId, submissionId, sets[k], n, rng, p).value.0| == |Questions(sets[k])|
    ensures QuestionSetRows(testId, submissionId, sets, k, n, rng, p).value.0
      == QuestionSetBlock(testId, submissionId, sets[k], n, rng, p).value.0
         + QuestionSetRows(testId, submissionId, sets, k + 1, n1, rng, p1).value.0
    ensures QuestionSetRows(testId, submissionId, sets, k, n, rng, p).value.1 == QuestionSetRows(testId, submissionId, sets, k + 1, n1, rng, p1).value.1
  {
    QuestionSetRowsSplit(testId, submissionId, sets, k, n, rng, p);
    QuestionSetBlockLength(testId, submissionId, sets[k], n, rng, p);
    var block := QuestionSetBlock(testId, submissionId, sets[k], n, rng, p).value;
    QuestionSetRowsSame(testId, submissionId, sets, k + 1, NextRowNumber(n, block.0), n1, rng, block.1, p1);
  }

  /** Question J of the whole document, when it belongs to set k, has its asked row inside set k's block. */
  lemma QuestionSetRowHere(testId: string, submissionId: string, sets: seq<Element>, k: nat, n: int, rng: Stream, p: nat,
                           n0: int, pos0: int, b: nat, J: nat)
    requires k < |sets| && b == QuestionsBefore(sets, k) && b <= J < b + |Questions(sets[k])| && n == n0 + b && p == pos0 + b
    requires QuestionSetRows(testId, submissionId, sets, k, n, rng, p).Ok?
    ensures J < |AllQuestions(sets, 0)| && pos0 + J >= 0
    ensures J - b < |QuestionSetRows(testId, submissionId, sets, k, n, rng, p).value.0|
    ensures AskedRow(QuestionSetRows(testId, submissionId, sets, k, n, rng, p).value.0[J - b], testId, submissionId, AllQuestions(sets, 0)[J], n0 + J, rng(pos0 + J))
  {
    var n1, p1 := n + |Questions(sets[k])|, p + |Questions(sets[k])|;
    QuestionSetRowsRest(testId, submissionId, sets, k, n, rng, p, n1, p1);
    AllQuestionsAt(sets, k, b, J);
    QuestionSetBlockAt(testId, submissionId, sets[k], n, rng, p, n0, pos0, b, J);
    RowInBlock(QuestionSetRows(testId, submissionId, sets, k, n, rng, p).value.0,
               QuestionSetBlock(testId, submissionId, sets[k], n, rng, p).value.0,
               QuestionSetRows(testId, submissionId, sets, k + 1, n1, rng, p1).value.0, J - b);
  }

  /**
   * Across question sets k.., which start at row number n == n0 + b and draw
   * p == pos0 + b, question J of the whole document has the asked row
   * numbered n0 + J, its answer chosen by draw pos0 + J; the b questions
   * before set k come before it.
   */
  lemma {:induction false} QuestionSetRowsFrom(testId: string, submissionId: string, sets: seq<Element>, k: nat, n: int, rng: Stream, p: nat,
                                              n0: int, pos0: int, b: nat, J: nat)
    requires k <= |sets| && b == QuestionsBefore(sets, k) && b <= J < QuestionCount(sets, 0) && n == n0 + b && p == pos0 + b
    requires QuestionSetRows(testId, submissionId, sets, k, n, rng, p).Ok?
    ensures J < |AllQuestions(sets, 0)| && pos0 + J >= 0
    ensures J - b < |QuestionSetRows(testId, submissionId, sets, k, n, rng, p).value.0|
    ensures AskedRow(QuestionSetRows(testId, submissionId, sets, k, n, rng, p).value.0[J - b], testId, submissionId, AllQuestions(sets, 0)[J], n0 + J, rng(pos0 + J))
    decreases |sets| - k
  {
    QuestionsBeforeTotal(sets, k);
    if k == |sets| {
      assert false;
    } else if J < b + |Questions(sets[k])| {
      QuestionSetRowHere(testId, submissionId, sets, k, n, rng, p, n0, pos0, b, J);
    } else {
      var k1, b1 := k + 1, b + |Questions(sets[k])|;
      var n1, p1 := n + |Questions(sets[k])|, p + |Questions(sets[k])|;
      QuestionSetRowsRest(testId, submissionId, sets, k, n, rng, p, n1, p1);
      QuestionsBeforeNext(sets, k);
      QuestionSetRowsFrom(testId, submissionId, sets, k1, n1, rng, p1, n0, pos0, b1, J);
      RowAfterBlock(QuestionSetRows(testId, submissionId, sets, k, n, rng, p).value.0,
                    QuestionSetBlock(testId, submissionId, sets[k], n, rng, p).value.0,
                    QuestionSetRows(testId, submissionId, sets, k1, n1, rng, p1).value.0, b, b1, J);
    }
  }

  /**
   * Across all question sets every question gets one row, none skipped or
   * repeated: the j-th question in document order gets row number n + j,
   * and draw pos + j chooses its answer.
   */
  lemma QuestionSetRowAt(testId: string, submissionId: string, sets: seq<Element>, n: int, rng: Stream, pos: nat, j: nat)
    requires j < QuestionCount(sets, 0) && QuestionSetRows(testId, submissionId, sets, 0, n, rng, pos).Ok?
    ensures j < |AllQuestions(sets, 0)| && j < |QuestionSetRows(testId, submissionId, sets, 0, n, rng, pos).value.0|
    ensures AskedRow(QuestionSetRows(testId, submissionId, sets, 0, n, rng, pos).value.0[j], testId, submissionId, AllQuestions(sets, 0)[j], n + j, rng(pos + j))
  {
    assert QuestionsBefore(sets, 0) == 0;
    QuestionSetRowsFrom(testId, submissionId, sets, 0, n, rng, pos, n, pos, 0, j);
  }

  /** One question set more: its rows come before those of the sets after it, which number on from them. */
  lemma QuestionSetRowsStep(testId: string, submissionId: string, sets: seq<Element>, k: nat, n: int, rng: Stream, pos: nat)
    requires k < |sets|
    ensures QuestionSetBlock(testId, submissionId, sets[k], n, rng, pos).Err? ==>
      QuestionSetRows(testId, submissionId, sets, k, n, rng, pos) == Err(QuestionSetBlock(testId, submissionId, sets[k], n, rng, pos).error)
    ensures QuestionSetBlock(testId, submissionId, sets[k], n, rng, pos).Ok? ==>
      QuestionSetRows(testId, submissionId, sets, k, n, rng, pos)
      == Prepend(QuestionSetBlock(testId, submissionId, sets[k], n, rng, pos).value.0,
                 QuestionSetRows(testId, submissionId, sets, k + 1, NextRowNumber(n, QuestionSetBlock(testId, submissionId, sets[k], n, rng, pos).value.0),
                                 rng, QuestionSetBlock(testId, submissionId, sets[k], n, rng, pos).value.1))
  {
  }

  /** After the rows so far, a question set whose block is built moves the remaining rows on by one set. */
  lemma QuestionSetRowsAdvance(testId: string, submissionId: string, sets: seq<Element>, k: nat, n: int, rng: Stream, pos: nat,
                               added: seq<Row>, block: seq<Row>, next: nat)
    requires k < |sets| && QuestionSetBlock(testId, submissionId, sets[k], n, rng, pos) == Ok((block, next))
    ensures Prepend(added, QuestionSetRows(testId, submissionId, sets, k, n, rng, pos))
      == Prepend(added + block, QuestionSetRows(testId, submissionId, sets, k + 1, NextRowNumber(n, block), rng, next))
  {
    QuestionSetRowsStep(testId, submissionId, sets, k, n, rng, pos);
    PrependTwice(added, block, QuestionSetRows(testId, submissionId, sets, k + 1, NextRowNumber(n, block), rng, next));
  }

  /** A question set whose block fails fails the remaining rows, whatever came before. */
  lemma QuestionSetRowsFail(testId: string, submissionId: string, sets: seq<Element>, k: nat, n: int, rng: Stream, pos: nat, added: seq<Row>)
    requires k < |sets| && QuestionSetBlock(testId, submissionId, sets[k], n, rng, pos).Err?
    ensures Prepend(added, QuestionSetRows(testId, submissionId, sets, k, n, rng, pos))
      == Err(QuestionSetBlock(testId, submissionId, sets[k], n, rng, pos).error)
  {
    QuestionSetRowsStep(testId, submissionId, sets, k, n, rng, pos);
  }

  /** The block a method built for question set k advances the rows or fails them. */
  lemma QuestionSetRowsTracked(testId: string, submissionId: string, sets: seq<Element>, k: nat, n: int, rng: Stream, pos: nat,
                               added: seq<Row>, block: Res<seq<Row>>, next: nat)
    requires k < |sets| && Tracks(block, next, QuestionSetBlock(testId, submissionId, sets[k], n, rng, pos))
    ensures block.Err? ==> Prepend(added, QuestionSetRows(testId, submissionId, sets, k, n, rng, pos)) == Err(block.error)
    ensures block.Ok? ==>
              Prepend(added, QuestionSetRows(testId, submissionId, sets, k, n, rng, pos))
              == Prepend(added + block.value, QuestionSetRows(testId, submissionId, sets, k + 1, NextRowNumber(n, block.value), rng, next))
  {
    if block.Err? {
      TracksErr(block, next, QuestionSetBlock(testId, submissionId, sets[k], n, rng, pos));
      QuestionSetRowsFail(testId, submissionId, sets, k, n, rng, pos, added);
    } else {
      TracksOk(block, next, QuestionSetBlock(testId, submissionId, sets[k], n, rng, pos));
      QuestionSetRowsAdvance(testId, submissionId, sets, k, n, rng, pos, added, block.value, next);
    }
  }

  /** The number of Question elements in question sets k..: one data row each, none skipped or repeated. */
  function QuestionCount(sets: seq<Element>, k: nat): nat
    requires k <= |sets|
    decreases |sets| - k
  {
    if k == |sets| then 0 else |Questions(sets[k])| + QuestionCount(sets, k + 1)
  }

  /** AnswerQuestions: the fixture, the headings, then one row per question, numbered from 1. */
  function AnswerQuestionsRows(fixture: string, suiteId: string, number: string, root: Element, rng: Stream, pos: nat): Res<(seq<Row>, nat)> {
    var sets :- QuestionSets(root);
    var body :- QuestionSetRows(TestId(suiteId, number, AnswerQuestions), SubmissionId(number), sets, 0, 1, rng, pos);
    Ok((AnswerQuestionsHead(fixture) + body.0, body.1))
  }

  /** The fixture row and the heading row of AnswerQuestions. */
  function AnswerQuestionsHead(fixture: string): seq<Row> {
    [FixtureRow(fixture), RowOf(InitialHeadings(AnswerQuestions), Some(InitialUnique(AnswerQuestions)))]
  }

  /** An asked row has six cells. */
  lemma AskedRowCells(row: Row, testId: string, submissionId: string, a: AskedQuestion, n: int, d: Draw)
    requires AskedRow(row, testId, submissionId, a, n, d)
    ensures |row.cells| == 6
  {
  }

  /**
   * `rows` are the asked rows of the questions `qs`, one each and in order:
   * the j-th has six cells, is numbered n + j, and draw pos + j chooses its
   * answer.
   */
  ghost predicate AskedRows(rows: seq<Row>, testId: string, submissionId: string, qs: seq<AskedQuestion>, n: int, rng: Stream, pos: nat) {
    |rows| == |qs|
    && forall j | 0 <= j < |qs| :: |rows[j].cells| == 6 && AskedRow(rows[j], testId, submissionId, qs[j], n + j, rng(pos + j))
  }

  /** The rows of all question sets are the asked rows of all their questions, in document order. */
  lemma QuestionSetRowsAsked(testId: string, submissionId: string, sets: seq<Element>, n: int, rng: Stream, pos: nat)
    requires QuestionSetRows(testId, submissionId, sets, 0, n, rng, pos).Ok?
    ensures AskedRows(QuestionSetRows(testId, submissionId, sets, 0, n, rng, pos).value.0, testId, submissionId, AllQuestions(sets, 0), n, rng, pos)
  {
    var rows := QuestionSetRows(testId, submissionId, sets, 0, n, rng, pos).value.0;
    var qs := AllQuestions(sets, 0);
    QuestionSetRowsLength(testId, submissionId, sets, 0, n, rng, pos);
    forall j | 0 <= j < |qs|
      ensures |rows[j].cells| == 6 && AskedRow(rows[j], testId, submissionId, qs[j], n + j, rng(pos + j))
    {
      QuestionSetRowAsked(testId, submissionId, sets, n, rng, pos, j, rows, qs);
    }
  }

  lemma QuestionSetRowAsked(testId: string, submissionId: string, sets: seq<Element>, n: int, rng: Stream, pos: nat, j: nat,
                            rows: seq<Row>, qs: seq<AskedQuestion>)
    requires QuestionSetRows(testId, submissionId, sets, 0, n, rng, pos).Ok?
    requires rows == QuestionSetRows(testId, submissionId, sets, 0, n, rng, pos).value.0 && qs == AllQuestions(sets, 0)
    requires j < |qs|
    ensures j < |rows| && |rows[j].cells| == 6 && AskedRow(rows[j], testId, submissionId, qs[j], n + j, rng(pos + j))
  {
    QuestionSetRowAt(testId, submissionId, sets, n, rng, pos, j);
    AskedRowCells(rows[j], testId, submissionId, qs[j], n + j, rng(pos + j));
  }

  /**
   * AnswerQuestions is the fixture row and the heading row, then one row
   * per question of every question set in document order: the j-th
   * question gets data row 1 + j, and draw pos + j chooses its answer.
   */
  lemma AnswerQuestionsRowsNumbered(fixture: string, suiteId: string, number: string, root: Element, rng: Stream, pos: nat)
    requires AnswerQuestionsRows(fixture, suiteId, number, root, rng, pos).Ok?
    ensures QuestionSets(root).Ok?
    ensures var r := AnswerQuestionsRows(fixture, suiteId, number, root, rng, pos).value;
      var qs := AllQuestions(QuestionSets(root).value, 0);
      && |r.0| == 2 + |qs| && r.1 == pos + |qs|
      && r.0[..2] == AnswerQuestionsHead(fixture)
      && AskedRows(r.0[2..], TestId(suiteId, number, AnswerQuestions), SubmissionId(number), qs, 1, rng, pos)
  {
    var sets := QuestionSets(root).value;
    var testId := TestId(suiteId, number, AnswerQuestions);
    var qs := AllQuestions(sets, 0);
    QuestionSetRowsLength(testId, SubmissionId(number), sets, 0, 1, rng, pos);
    var head := AnswerQuestionsHead(fixture);
    var r := AnswerQuestionsRows(fixture, suiteId, number, root, rng, pos).value;
    assert r.0 == head + QuestionSetRows(testId, SubmissionId(number), sets, 0, 1, rng, pos).value.0;
    assert r.0[..2] == head && r.0[2..] == QuestionSetRows(testId, SubmissionId(number), sets, 0, 1, rng, pos).value.0;
    QuestionSetRowsAsked(testId, SubmissionId(number), sets, 1, rng, pos);
  }

  // ---------------------------------------------------------------------------
  //  UpdateDwelling
  // ---------------------------------------------------------------------------

  /** update_headings: the initial headings, a heading per dwelling property, then Valid(). */
  function DwellingHeadings(names: seq<Option<string>>): (r: seq<string>)
    ensures |r| == |names| + 3 && r[|r| - 1] == "Valid()"
  {
    InitialHeadings(UpdateDwelling) + Cells(names) + ["Valid()"]
  }

  /** The flags update_headings keeps in lockstep with the headings: one False per heading added. */
  function DwellingUnique(names: seq<Option<string>>): (r: seq<bool>)
    ensures |r| == |names| + 3
    ensures forall i | 0 <= i < |r| :: r[i] <==> i == 1
  {
    InitialUnique(UpdateDwelling) + Falses(|names|) + [false]
  }

  /** update_headings: fetch_dwelling, then a name per dwelling property (None where it is not selected). */
  function DwellingNames(root: Element, rng: Stream, pos: nat): (r: Res<(seq<Option<string>>, nat)>)
    ensures r.Ok? ==> Dwelling(root).Ok? && |r.value.0| == |FindAll(Dwelling(root).value, "Property")|
  {
    var dwelling :- Dwelling(root);
    HeadingsOf(PropertyChoices(dwelling, rng, pos))
  }

  /** create_row: fetch_dwelling again, then a value per dwelling property, drawn anew. */
  function DwellingValues(root: Element, rng: Stream, pos: nat): (r: Res<(seq<Option<string>>, nat)>)
    ensures r.Ok? ==> Dwelling(root).Ok? && |r.value.0| == |FindAll(Dwelling(root).value, "Property")|
  {
    var dwelling :- Dwelling(root);
    ValuesOf(PropertyChoices(dwelling, rng, pos))
  }

  /**
   * Heading i of update_headings belongs to the i-th Property of the
   * dwelling d: it is that property's PropertyName text when the draw after
   * those of the earlier properties does not exceed its weight, and None
   * otherwise.
   */
  lemma DwellingNamesAt(root: Element, d: Element, rng: Stream, pos: nat, i: nat)
    requires Dwelling(root) == Ok(d) && DwellingNames(root, rng, pos).Ok? && i < |FindAll(d, "Property")|
    ensures PropertyChoices(d, rng, pos).Ok?
    ensures var props := FindAll(d, "Property");
      var cs := PropertyChoices(d, rng, pos).value.0;
      var h := DwellingNames(root, rng, pos).value;
      && |h.0| == |props| && i < |cs| && h.1 == pos + TotalDraws(cs)
      && FetchWeight(props[i]).Ok? && FetchText(props[i], "PropertyName").Ok?
      && (cs[i].Included? <==> rng(pos + TotalDraws(cs[..i])) <= FetchWeight(props[i]).value)
      && (cs[i].Excluded? ==> h.0[i] == None)
      && (cs[i].Included? ==> h.0[i] == FetchText(props[i], "PropertyName").value)
  {
    assert DwellingNames(root, rng, pos) == HeadingsOf(PropertyChoices(d, rng, pos));
    PropertyColumnsAt(d, rng, pos, i);
  }

  /**
   * Value i of create_row belongs to the i-th Property of the dwelling d,
   * drawn in a round of its own: None when the property is left out, and
   * otherwise the Value that the draw after its inclusion draw chooses.
   */
  lemma DwellingValuesAt(root: Element, d: Element, rng: Stream, pos: nat, i: nat)
    requires Dwelling(root) == Ok(d) && DwellingValues(root, rng, pos).Ok? && i < |FindAll(d, "Property")|
    ensures PropertyChoices(d, rng, pos).Ok?
    ensures var props := FindAll(d, "Property");
      var cs := PropertyChoices(d, rng, pos).value.0;
      var v := DwellingValues(root, rng, pos).value;
      && |v.0| == |props| && i < |cs| && v.1 == pos + TotalDraws(cs)
      && FetchWeight(props[i]).Ok? && FetchText(props[i], "PropertyName").Ok?
      && (cs[i].Included? <==> rng(pos + TotalDraws(cs[..i])) <= FetchWeight(props[i]).value)
      && (cs[i].Excluded? ==> v.0[i] == None)
      && (cs[i].Included? ==>
            Ok(v.0[i]) == ChosenValue(props[i], FetchText(props[i], "PropertyName").value, "Value", rng(pos + TotalDraws(cs[..i]) + 1)))
  {
    assert DwellingValues(root, rng, pos) == ValuesOf(PropertyChoices(d, rng, pos));
    PropertyColumnsAt(d, rng, pos, i);
  }

  /** The data row of UpdateDwelling: test id, submission id, a cell per property value, "true". */
  function DwellingDataRow(suiteId: string, number: string, values: seq<Option<string>>): Row {
    RowOf([TestId(suiteId, number, UpdateDwelling), SubmissionId(number)] + Cells(values) + ["true"], None)
  }

  /**
   * UpdateDwelling: the fixture, the extended headings and one data row.
   * The headings and the values come from two separate passes over the
   * dwelling's properties, each with its own draws.
   */
  function UpdateDwellingRows(fixture: string, suiteId: string, number: string, root: Element, rng: Stream, pos: nat): (r: Res<(seq<Row>, nat)>)
    ensures r.Ok? ==> |r.value.0| == 3 && r.value.0[0] == FixtureRow(fixture)
  {
    var names :- DwellingNames(root, rng, pos);
    var values :- DwellingValues(root, rng, names.1);
    Ok(([FixtureRow(fixture), RowOf(DwellingHeadings(names.0), Some(DwellingUnique(names.0))), DwellingDataRow(suiteId, number, values.0)], values.1))
  }

  /** UpdateDwellingRows once the headings and the values are drawn. */
  lemma UpdateDwellingRowsOk(fixture: string, suiteId: string, number: string, root: Element, rng: Stream, pos: nat,
                             names: seq<Option<string>>, mid: nat, values: seq<Option<string>>, end: nat)
    requires DwellingNames(root, rng, pos) == Ok((names, mid))
    requires DwellingValues(root, rng, mid) == Ok((values, end))
    ensures UpdateDwellingRows(fixture, suiteId, number, root, rng, pos)
      == Ok(([FixtureRow(fixture), RowOf(DwellingHeadings(names), Some(DwellingUnique(names))), DwellingDataRow(suiteId, number, values)], end))
  {
  }

  /** UpdateDwellingRows fails as the headings fail. */
  lemma UpdateDwellingRowsNamesErr(fixture: string, suiteId: string, number: string, root: Element, rng: Stream, pos: nat)
    requires DwellingNames(root, rng, pos).Err?
    ensures UpdateDwellingRows(fixture, suiteId, number, root, rng, pos) == Err(DwellingNames(root, rng, pos).error)
  {
  }

  /** UpdateDwellingRows fails as the values fail, once the headings are drawn. */
  lemma UpdateDwellingRowsValuesErr(fixture: string, suiteId: string, number: string, root: Element, rng: Stream, pos: nat, mid: nat)
    requires DwellingNames(root, rng, pos).Ok? && DwellingNames(root, rng, pos).value.1 == mid && DwellingValues(root, rng, mid).Err?
    ensures UpdateDwellingRows(fixture, suiteId, number, root, rng, pos) == Err(DwellingValues(root, rng, mid).error)
  {
  }

  /** The heading row and the data row of UpdateDwelling have one cell per property plus three. */
  lemma {:induction false} DwellingRowsAligned(fixture: string, suiteId: string, number: string, root: Element, rng: Stream, pos: nat)
    requires UpdateDwellingRows(fixture, suiteId, number, root, rng, pos).Ok?
    ensures var rows := UpdateDwellingRows(fixture, suiteId, number, root, rng, pos).value.0;
      && |rows| == 3
      && |rows[1].cells| == |rows[2].cells| == |FindAll(Dwelling(root).value, "Property")| + 3
      && rows[1].cells[|rows[1].cells| - 1] == "Valid()" && rows[2].cells[|rows[2].cells| - 1] == "true"
  {
    var names := DwellingNames(root, rng, pos).value;
    var values := DwellingValues(root, rng, names.1).value;
    assert |names.0| == |values.0|;
  }

  // ---------------------------------------------------------------------------
  //  CreateCoverages
  // ---------------------------------------------------------------------------

  /** A row written by create_coverage: its third cell is the new coverage's id. */
  predicate IsCreate(row: Row) {
    |row.cells| >= 3 && row.cells[0] == "create"
  }

  /** How many coverages the rows create. */
  function CreateCount(rows: seq<Row>): nat
    decreases |rows|
  {
    if rows == [] then 0 else (if IsCreate(rows[0]) then 1 else 0) + CreateCount(rows[1..])
  }

  /** Reading the rows in order, the coverages they create are numbered from + 1, from + 2, ... */
  predicate CreatesFrom(rows: seq<Row>, testId: string, from: int)
    decreases |rows|
  {
    if rows == [] then true
    else if IsCreate(rows[0]) then rows[0].cells[2] == RowId(testId, from + 1) && CreatesFrom(rows[1..], testId, from + 1)
    else CreatesFrom(rows[1..], testId, from)
  }

  /** Numbering is read left to right: the second part of a table continues where the first stopped. */
  lemma {:induction false} CreatesAppend(a: seq<Row>, b: seq<Row>, testId: string, from: int)
    ensures CreateCount(a + b) == CreateCount(a) + CreateCount(b)
    ensures CreatesFrom(a + b, testId, from) <==> CreatesFrom(a, testId, from) && CreatesFrom(b, testId, from + CreateCount(a))
    decreases |a|
  {
    if a == [] {
      assert a + b == b;
    } else {
      assert (a + b)[0] == a[0];
      assert (a + b)[1..] == a[1..] + b;
      if IsCreate(a[0]) {
        CreatesAppend(a[1..], b, testId, from + 1);
      } else {
        CreatesAppend(a[1..], b, testId, from);
      }
    }
  }

  /** Rows with no "create" row among them create nothing, whatever the numbering. */
  lemma {:induction false} CreatesNone(rows: seq<Row>, testId: string, from: int)
    requires forall i | 0 <= i < |rows| :: !IsCreate(rows[i])
    ensures CreateCount(rows) == 0 && CreatesFrom(rows, testId, from)
    decreases |rows|
  {
    if rows != [] {
      assert forall i | 0 <= i < |rows[1..]| :: rows[1..][i] == rows[i + 1];
      CreatesNone(rows[1..], testId, from);
    }
  }

  /** Two runs of coverages, count + 1 .. count + m and count + m + 1 .. total, make one run. */
  lemma CreatesJoin(a: seq<Row>, b: seq<Row>, testId: string, count: int, m: nat, total: int)
    requires CreatesFrom(a, testId, count) && CreateCount(a) == m
    requires CreatesFrom(b, testId, count + m) && CreateCount(b) == total - (count + m)
    ensures CreatesFrom(a + b, testId, count) && CreateCount(a + b) == total - count
  {
    CreatesAppend(a, b, testId, count);
  }

  /** The ids of the created coverages, in table order: the third cell of each "create" row. */
  function CreatedIds(rows: seq<Row>): (ids: seq<string>)
    ensures |ids| == CreateCount(rows)
    decreases |rows|
  {
    if rows == [] then []
    else (if IsCreate(rows[0]) then [rows[0].cells[2]] else []) + CreatedIds(rows[1..])
  }

  /** The ids create_coverage hands out from a count of `from` on, n of them. */
  function Numbered(testId: string, from: int, n: nat): seq<string> {
    seq(n, i => RowId(testId, from + 1 + i))
  }

  /**
   * CreatesFrom says what the reference definition says: the list of
   * created ids is exactly from + 1, from + 2, ... in order.
   */
  lemma {:induction false} CreatesFromIds(rows: seq<Row>, testId: string, from: int)
    ensures CreatesFrom(rows, testId, from) <==> CreatedIds(rows) == Numbered(testId, from, CreateCount(rows))
    decreases |rows|
  {
    if rows != [] {
      var tail := rows[1..];
      var ids := CreatedIds(tail);
      if IsCreate(rows[0]) {
        CreatesFromIds(tail, testId, from + 1);
        var n := CreateCount(tail);
        var whole := Numbered(testId, from, n + 1);
        var rest := Numbered(testId, from + 1, n);
        assert CreatedIds(rows) == [rows[0].cells[2]] + ids;
        assert whole == [RowId(testId, from + 1)] + rest by {
          forall i | 0 < i <= n ensures whole[i] == rest[i - 1] {
            var j := i - 1;
            var k := from + 1 + 1 + j;
            assert k == from + 1 + i;
          }
        }
        if CreatedIds(rows) == whole {
          assert ids == ([rows[0].cells[2]] + ids)[1..];
        }
      } else {
        CreatesFromIds(tail, testId, from);
        assert CreatedIds(rows) == [] + ids;
      }
    }
  }

  /** Within one table no two coverages get the same id. */
  lemma CreatedIdsDistinct(rows: seq<Row>, testId: string, from: int)
    requires CreatesFrom(rows, testId, from)
    ensures forall i, j | 0 <= i < j < |CreatedIds(rows)| :: CreatedIds(rows)[i] != CreatedIds(rows)[j]
  {
    CreatesFromIds(rows, testId, from);
    var ids := CreatedIds(rows);
    forall i, j | 0 <= i < j < |ids| ensures ids[i] != ids[j] {
      RowIdsDiffer(testId, from + 1 + i, from + 1 + j);
    }
  }

  /**
   * process_coverage_term: the term code and a value chosen with one draw,
   * which must be neither None nor empty.
   */
  function TermRow(term: Element, rng: Stream, pos: nat): (r: Res<(Row, nat)>)
    ensures r.Ok? ==> r.value.1 == pos + 1
    ensures r.Ok? ==> |r.value.0.cells| == 4 && r.value.0.cells[0] == "with" && r.value.0.cells[2] != ""
    ensures r.Ok? ==> FetchText(term, "CoverageTermCode").Ok? && r.value.0.cells[1] == Cell(FetchText(term, "CoverageTermCode").value)
    ensures r.Ok? ==> ChosenValue(term, Some("CoverageTerm"), "Term", rng(pos)) == Ok(Some(r.value.0.cells[2]))
    ensures FetchText(term, "CoverageTermCode").Ok? && ChosenValue(term, Some("CoverageTerm"), "Term", rng(pos)) in {Ok(None), Ok(Some(""))} ==>
              r == Err(EmptyTermValue(FetchText(term, "CoverageTermCode").value))
  {
    var code :- FetchText(term, "CoverageTermCode");
    var value :- TermValue(term, rng, pos);
    if value.0.None? || value.0.value == "" then Err(EmptyTermValue(code))
    else Ok((WithRow(Cell(code), value.0.value), value.1))
  }

  /** The "with" rows of coverage terms k.., one draw each. */
  function TermRows(terms: seq<Element>, k: nat, rng: Stream, pos: nat): Res<(seq<Row>, nat)>
    requires k <= |terms|
    decreases |terms| - k
  {
    if k == |terms| then Ok(([], pos))
    else
      var row :- TermRow(terms[k], rng, pos);
      var rest :- TermRows(terms, k + 1, rng, row.1);
      Ok(([row.0] + rest.0, rest.1))
  }

  /** Terms k.. give one "with" row each, one draw each. */
  lemma {:induction false} TermRowsWith(terms: seq<Element>, k: nat, rng: Stream, pos: nat)
    requires k <= |terms|
    ensures var r := TermRows(terms, k, rng, pos);
      r.Ok? ==> |r.value.0| == |terms| - k && r.value.1 == pos + (|terms| - k) && WithRows(r.value.0)
    decreases |terms| - k
  {
    if k < |terms| {
      var k1, p1 := k + 1, pos + 1;
      TermRowsWith(terms, k1, rng, p1);
      TermRowsWithStep(terms, k, rng, pos, k1, p1);
    }
  }

  /** A term's "with" row before the rows of the terms after it keeps them all "with" rows, one per term and draw. */
  lemma TermRowsWithStep(terms: seq<Element>, k: nat, rng: Stream, pos: nat, k1: nat, p1: nat)
    requires k < |terms| && k1 == k + 1 && p1 == pos + 1
    requires var rest := TermRows(terms, k1, rng, p1);
      rest.Ok? ==> |rest.value.0| == |terms| - k1 && rest.value.1 == p1 + (|terms| - k1) && WithRows(rest.value.0)
    ensures var r := TermRows(terms, k, rng, pos);
      r.Ok? ==> |r.value.0| == |terms| - k && r.value.1 == pos + (|terms| - k) && WithRows(r.value.0)
  {
    TermRowsStep(terms, k, rng, pos);
    var row := TermRow(terms[k], rng, pos);
    if row.Ok? {
      TermRowsSame(terms, k + 1, k1, rng, row.value.1, p1);
      PrependWith(TermRows(terms, k, rng, pos), row.value.0, TermRows(terms, k + 1, rng, row.value.1));
    }
  }

  /** The rows of terms k.. depend on k and the draw position, however they are written. */
  lemma TermRowsSame(terms: seq<Element>, k: nat, k': nat, rng: Stream, p: nat, p': nat)
    requires k == k' <= |terms| && p == p'
    ensures TermRows(terms, k, rng, p) == TermRows(terms, k', rng, p')
  {
  }

  /** Every row is a four-cell "with" row. */
  predicate WithRows(rows: seq<Row>) {
    forall i | 0 <= i < |rows| :: |rows[i].cells| == 4 && rows[i].cells[0] == "with"
  }

  /** A "with" row put before "with" rows gives "with" rows, one more of them. */
  lemma PrependWith(whole: Res<(seq<Row>, nat)>, row: Row, rest: Res<(seq<Row>, nat)>)
    requires whole == Prepend([row], rest) && |row.cells| == 4 && row.cells[0] == "with"
    requires rest.Ok? ==> WithRows(rest.value.0)
    ensures whole.Ok? ==> rest.Ok? && |whole.value.0| == |rest.value.0| + 1 && whole.value.1 == rest.value.1 && WithRows(whole.value.0)
  {
    if rest.Ok? {
      var rows := [row] + rest.value.0;
      assert forall i | 1 <= i < |rows| :: rows[i] == rest.value.0[i - 1];
    }
  }

  /** One term more: its "with" row comes before those of the terms after it. */
  lemma TermRowsStep(terms: seq<Element>, k: nat, rng: Stream, pos: nat)
    requires k < |terms|
    ensures TermRow(terms[k], rng, pos).Err? ==> TermRows(terms, k, rng, pos) == Err(TermRow(terms[k], rng, pos).error)
    ensures TermRow(terms[k], rng, pos).Ok? ==>
      TermRows(terms, k, rng, pos) == Prepend([TermRow(terms[k], rng, pos).value.0], TermRows(terms, k + 1, rng, TermRow(terms[k], rng, pos).value.1))
  {
  }

  /** After the rows so far, a term whose row is built moves the remaining rows on by one term. */
  lemma TermRowsAdvance(terms: seq<Element>, k: nat, rng: Stream, pos: nat, added: seq<Row>, row: Row, next: nat)
    requires k < |terms| && TermRow(terms[k], rng, pos) == Ok((row, next))
    ensures Prepend(added, TermRows(terms, k, rng, pos)) == Prepend(added + [row], TermRows(terms, k + 1, rng, next))
  {
    TermRowsStep(terms, k, rng, pos);
    PrependTwice(added, [row], TermRows(terms, k + 1, rng, next));
  }

  /** A term whose row fails fails the remaining rows, whatever came before. */
  lemma TermRowsFail(terms: seq<Element>, k: nat, rng: Stream, pos: nat, added: seq<Row>)
    requires k < |terms| && TermRow(terms[k], rng, pos).Err?
    ensures Prepend(added, TermRows(terms, k, rng, pos)) == Err(TermRow(terms[k], rng, pos).error)
  {
    TermRowsStep(terms, k, rng, pos);
  }

  /** The row a method built for term k advances the rows or fails them. */
  lemma TermRowsTracked(terms: seq<Element>, k: nat, rng: Stream, pos: nat, added: seq<Row>, row: Res<Row>, next: nat)
    requires k < |terms| && Tracks(row, next, TermRow(terms[k], rng, pos))
    ensures row.Err? ==> Prepend(added, TermRows(terms, k, rng, pos)) == Err(row.error)
    ensures row.Ok? ==> Prepend(added, TermRows(terms, k, rng, pos)) == Prepend(added + [row.value], TermRows(terms, k + 1, rng, next))
  {
    if row.Err? {
      TracksErr(row, next, TermRow(terms[k], rng, pos));
      TermRowsFail(terms, k, rng, pos, added);
    } else {
      TracksOk(row, next, TermRow(terms[k], rng, pos));
      TermRowsAdvance(terms, k, rng, pos, added, row.value, next);
    }
  }

  /**
   * process_coverage: the coverage count goes up first, then the coverage
   * is created under the new number and its terms follow.
   */
  function CoverageBlock(testId: string, coverage: Element, count: int, rng: Stream, pos: nat): Res<(seq<Row>, nat)> {
    var code :- FetchText(coverage, "CoverageCode");
    if code.None? || code.value == "" then Err(EmptyCoverageCode)
    else
      var terms :- TermRows(CoverageTerms(coverage), 0, rng, pos);
      Ok(([CreateRow(testId, count + 1, code.value)] + terms.0, terms.1))
  }

  /** With its code fetched and not empty, a coverage's block is its create row before its term rows. */
  lemma CoverageBlockRows(testId: string, coverage: Element, count: int, rng: Stream, pos: nat, code: string)
    requires FetchText(coverage, "CoverageCode") == Ok(Some(code)) && code != ""
    ensures CoverageBlock(testId, coverage, count, rng, pos) == Prepend([CreateRow(testId, count + 1, code)], TermRows(CoverageTerms(coverage), 0, rng, pos))
  {
  }

  /**
   * A coverage whose code is None or empty is an error; otherwise its block
   * starts with the create row numbered count + 1 and creates nothing else.
   */
  lemma CoverageBlockCreates(testId: string, coverage: Element, count: int, rng: Stream, pos: nat)
    ensures FetchText(coverage, "CoverageCode") in {Ok(None), Ok(Some(""))} ==> CoverageBlock(testId, coverage, count, rng, pos) == Err(EmptyCoverageCode)
    ensures CoverageBlock(testId, coverage, count, rng, pos).Ok? ==>
      (FetchString(coverage, "CoverageCode").Ok? && CoverageBlock(testId, coverage, count, rng, pos).value.0 != []
       && CoverageBlock(testId, coverage, count, rng, pos).value.0[0] == CreateRow(testId, count + 1, FetchString(coverage, "CoverageCode").value)
       && CreatesFrom(CoverageBlock(testId, coverage, count, rng, pos).value.0, testId, count)
       && CreateCount(CoverageBlock(testId, coverage, count, rng, pos).value.0) == 1)
  {
    var code := FetchString(coverage, "CoverageCode");
    if code.Ok? && code.value != "" {
      var terms := TermRows(CoverageTerms(coverage), 0, rng, pos);
      if terms.Ok? {
        TermRowsWith(CoverageTerms(coverage), 0, rng, pos);
        var create := CreateRow(testId, count + 1, code.value);
        CreatesNone(terms.value.0, testId, count + 1);
        CreatesAppend([create], terms.value.0, testId, count);
        assert [create][1..] == [];
      }
    }
  }

  /** The rows for selected coverages k..; `count` is how many coverages the table created before coverage k. */
  function CoverageRows(testId: string, coverages: seq<Element>, k: nat, count: int, rng: Stream, pos: nat): Res<(seq<Row>, nat)>
    requires k <= |coverages|
    decreases |coverages| - k
  {
    if k == |coverages| then Ok(([], pos))
    else
      var here :- CoverageBlock(testId, coverages[k], count, rng, pos);
      var rest :- CoverageRows(testId, coverages, k + 1, count + 1, rng, here.1);
      Ok((here.0 + rest.0, rest.1))
  }

  /** Coverages k.. create one coverage each, numbered on from count + 1. */
  lemma {:induction false} CoverageRowsCreate(testId: string, coverages: seq<Element>, k: nat, count: int, rng: Stream, pos: nat)
    requires k <= |coverages|
    ensures CoverageRows(testId, coverages, k, count, rng, pos).Ok? ==>
      (CreatesFrom(CoverageRows(testId, coverages, k, count, rng, pos).value.0, testId, count)
       && CreateCount(CoverageRows(testId, coverages, k, count, rng, pos).value.0) == |coverages| - k)
    decreases |coverages| - k
  {
    if k < |coverages| {
      var here := CoverageBlock(testId, coverages[k], count, rng, pos);
      if here.Ok? {
        CoverageBlockCreates(testId, coverages[k], count, rng, pos);
        CoverageRowsCreate(testId, coverages, k + 1, count + 1, rng, here.value.1);
        var rest := CoverageRows(testId, coverages, k + 1, count + 1, rng, here.value.1);
        if rest.Ok? {
          CreatesJoin(here.value.0, rest.value.0, testId, count, 1, count + (|coverages| - k));
          assert CoverageRows(testId, coverages, k, count, rng, pos) == Ok((here.value.0 + rest.value.0, rest.value.1));
        }
      }
    }
  }

  /** One coverage more: its block comes before those of the coverages after it, which count on from it. */
  lemma CoverageRowsStep(testId: string, coverages: seq<Element>, k: nat, count: int, rng: Stream, pos: nat)
    requires k < |coverages|
    ensures CoverageBlock(testId, coverages[k], count, rng, pos).Err? ==>
      CoverageRows(testId, coverages, k, count, rng, pos) == Err(CoverageBlock(testId, coverages[k], count, rng, pos).error)
    ensures CoverageBlock(testId, coverages[k], count, rng, pos).Ok? ==>
      CoverageRows(testId, coverages, k, count, rng, pos)
      == Prepend(CoverageBlock(testId, coverages[k], count, rng, pos).value.0,
                 CoverageRows(testId, coverages, k + 1, count + 1, rng, CoverageBlock(testId, coverages[k], count, rng, pos).value.1))
  {
  }

  /** After the rows so far, a coverage whose block is built moves the remaining rows on by one coverage. */
  lemma CoverageRowsAdvance(testId: string, coverages: seq<Element>, k: nat, count: int, rng: Stream, pos: nat,
                            added: seq<Row>, block: seq<Row>, next: nat)
    requires k < |coverages| && CoverageBlock(testId, coverages[k], count, rng, pos) == Ok((block, next))
    ensures Prepend(added, CoverageRows(testId, coverages, k, count, rng, pos))
      == Prepend(added + block, CoverageRows(testId, coverages, k + 1, count + 1, rng, next))
  {
    CoverageRowsStep(testId, coverages, k, count, rng, pos);
    PrependTwice(added, block, CoverageRows(testId, coverages, k + 1, count + 1, rng, next));
  }

  /** A coverage whose block fails fails the remaining rows, whatever came before. */
  lemma CoverageRowsFail(testId: string, coverages: seq<Element>, k: nat, count: int, rng: Stream, pos: nat, added: seq<Row>)
    requires k < |coverages| && CoverageBlock(testId, coverages[k], count, rng, pos).Err?
    ensures Prepend(added, CoverageRows(testId, coverages, k, count, rng, pos))
      == Err(CoverageBlock(testId, coverages[k], count, rng, pos).error)
  {
    CoverageRowsStep(testId, coverages, k, count, rng, pos);
  }

  /** The block a method built for coverage k advances the rows or fails them. */
  lemma CoverageRowsTracked(testId: string, coverages: seq<Element>, k: nat, count: int, rng: Stream, pos: nat,
                            added: seq<Row>, block: Res<seq<Row>>, next: nat)
    requires k < |coverages| && Tracks(block, next, CoverageBlock(testId, coverages[k], count, rng, pos))
    ensures block.Err? ==> Prepend(added, CoverageRows(testId, coverages, k, count, rng, pos)) == Err(block.error)
    ensures block.Ok? ==>
              Prepend(added, CoverageRows(testId, coverages, k, count, rng, pos))
              == Prepend(added + block.value, CoverageRows(testId, coverages, k + 1, count + 1, rng, next))
  {
    if block.Err? {
      TracksErr(block, next, CoverageBlock(testId, coverages[k], count, rng, pos));
      CoverageRowsFail(testId, coverages, k, count, rng, pos, added);
    } else {
      TracksOk(block, next, CoverageBlock(testId, coverages[k], count, rng, pos));
      CoverageRowsAdvance(testId, coverages, k, count, rng, pos, added, block.value, next);
    }
  }

  /**
   * process_coverables for one coverable: its name (not empty), its select
   * row, then the selected coverages, of which there must be one at least;
   * and the coverage count after it.
   */
  function CoverableBlock(testId: string, coverable: Element, count: int, rng: Stream, pos: nat): Res<(seq<Row>, int, nat)> {
    var name :- FetchText(coverable, "CoverableName");
    if name.None? || name.value == "" then Err(EmptyCoverableName)
    else
      var selected :- SelectedFrom(FindAll(coverable, "Coverage"), 0, rng, pos);
      if selected.0 == [] then Err(NoCoverages(name.value))
      else
        var here :- CoverageRows(testId, selected.0, 0, count, rng, selected.1);
        Ok(([SelectCoverableRow(name.value)] + here.0, count + |selected.0|, here.1))
  }

  /**
   * A coverable whose name is None or empty, or with no coverage selected, is an
   * error; otherwise its block starts with its select row and creates one
   * coverage per selected coverage, at least one, numbered on from count + 1.
   */
  lemma CoverableBlockCreates(testId: string, coverable: Element, count: int, rng: Stream, pos: nat)
    ensures FetchText(coverable, "CoverableName") in {Ok(None), Ok(Some(""))} ==> CoverableBlock(testId, coverable, count, rng, pos) == Err(EmptyCoverableName)
    ensures CoverableBlock(testId, coverable, count, rng, pos).Ok? ==>
      (FetchString(coverable, "CoverableName").Ok? && CoverableBlock(testId, coverable, count, rng, pos).value.0 != []
       && CoverableBlock(testId, coverable, count, rng, pos).value.0[0] == SelectCoverableRow(FetchString(coverable, "CoverableName").value))
    ensures CoverableBlock(testId, coverable, count, rng, pos).Ok? ==>
      (CoverableBlock(testId, coverable, count, rng, pos).value.1 >= count + 1
       && CreatesFrom(CoverableBlock(testId, coverable, count, rng, pos).value.0, testId, count)
       && CreateCount(CoverableBlock(testId, coverable, count, rng, pos).value.0) == CoverableBlock(testId, coverable, count, rng, pos).value.1 - count)
  {
    var name := FetchString(coverable, "CoverableName");
    if name.Ok? && name.value != "" {
      var selected := SelectedFrom(FindAll(coverable, "Coverage"), 0, rng, pos);
      if selected.Ok? && selected.value.0 != [] {
        var here := CoverageRows(testId, selected.value.0, 0, count, rng, selected.value.1);
        if here.Ok? {
          CoverageRowsCreate(testId, selected.value.0, 0, count, rng, selected.value.1);
          var select := SelectCoverableRow(name.value);
          CreatesNone([select], testId, count);
          CreatesAppend([select], here.value.0, testId, count);
        }
      }
    }
  }

  /** A block builder that returned `r` produced the rows, the coverage count and the cursor `s` describes. */
  ghost predicate TracksCounted(r: Res<seq<Row>>, count: int, drawn: nat, s: Res<(seq<Row>, int, nat)>) {
    match s
    case Ok(v) => r == Ok(v.0) && count == v.1 && drawn == v.2
    case Err(e) => r == Err(e)
  }

  /** `prefix` followed by the rows `s` produces, the count and cursor passed on (an error stays an error). */
  function PrependCounted(prefix: seq<Row>, s: Res<(seq<Row>, int, nat)>): Res<(seq<Row>, int, nat)> {
    match s
    case Ok(v) => Ok((prefix + v.0, v.1, v.2))
    case Err(e) => Err(e)
  }

  lemma PrependCountedTwice(a: seq<Row>, b: seq<Row>, s: Res<(seq<Row>, int, nat)>)
    ensures PrependCounted(a, PrependCounted(b, s)) == PrependCounted(a + b, s)
  {
    if s.Ok? {
      assert a + (b + s.value.0) == (a + b) + s.value.0;
    }
  }

  /** The rows for selected coverables k.., and the coverage count after them. */
  function CoverableRows(testId: string, coverables: seq<Element>, k: nat, count: int, rng: Stream, pos: nat): Res<(seq<Row>, int, nat)>
    requires k <= |coverables|
    decreases |coverables| - k
  {
    if k == |coverables| then Ok(([], count, pos))
    else
      var here :- CoverableBlock(testId, coverables[k], count, rng, pos);
      var rest :- CoverableRows(testId, coverables, k + 1, here.1, rng, here.2);
      Ok((here.0 + rest.0, rest.1, rest.2))
  }

  /**
   * Coverables k.. create at least one coverage each, numbered on from
   * count + 1 without a gap, and the count they return is the last number.
   */
  lemma {:induction false} CoverableRowsCreate(testId: string, coverables: seq<Element>, k: nat, count: int, rng: Stream, pos: nat)
    requires k <= |coverables|
    ensures CoverableRows(testId, coverables, k, count, rng, pos).Ok? ==>
      (CoverableRows(testId, coverables, k, count, rng, pos).value.1 >= count + (|coverables| - k)
       && CreatesFrom(CoverableRows(testId, coverables, k, count, rng, pos).value.0, testId, count)
       && CreateCount(CoverableRows(testId, coverables, k, count, rng, pos).value.0) == CoverableRows(testId, coverables, k, count, rng, pos).value.1 - count)
    decreases |coverables| - k
  {
    if k < |coverables| {
      var here := CoverableBlock(testId, coverables[k], count, rng, pos);
      if here.Ok? {
        CoverableBlockCreates(testId, coverables[k], count, rng, pos);
        CoverableRowsCreate(testId, coverables, k + 1, here.value.1, rng, here.value.2);
        var rest := CoverableRows(testId, coverables, k + 1, here.value.1, rng, here.value.2);
        if rest.Ok? {
          CreatesJoin(here.value.0, rest.value.0, testId, count, here.value.1 - count, rest.value.1);
          assert CoverableRows(testId, coverables, k, count, rng, pos) == Ok((here.value.0 + rest.value.0, rest.value.1, rest.value.2));
        }
      }
    }
  }

  /** One coverable more: its block comes before those of the coverables after it, which count on from it. */
  lemma CoverableRowsStep(testId: string, coverables: seq<Element>, k: nat, count: int, rng: Stream, pos: nat)
    requires k < |coverables|
    ensures CoverableBlock(testId, coverables[k], count, rng, pos).Err? ==>
      CoverableRows(testId, coverables, k, count, rng, pos) == Err(CoverableBlock(testId, coverables[k], count, rng, pos).error)
    ensures CoverableBlock(testId, coverables[k], count, rng, pos).Ok? ==>
      CoverableRows(testId, coverables, k, count, rng, pos)
      == PrependCounted(CoverableBlock(testId, coverables[k], count, rng, pos).value.0,
                        CoverableRows(testId, coverables, k + 1, CoverableBlock(testId, coverables[k], count, rng, pos).value.1,
                                      rng, CoverableBlock(testId, coverables[k], count, rng, pos).value.2))
  {
  }

  /** After the rows so far, a coverable whose block is built moves the remaining rows on by one coverable. */
  lemma CoverableRowsAdvance(testId: string, coverables: seq<Element>, k: nat, count: int, rng: Stream, pos: nat,
                             added: seq<Row>, block: seq<Row>, nextCount: int, next: nat)
    requires k < |coverables| && CoverableBlock(testId, coverables[k], count, rng, pos) == Ok((block, nextCount, next))
    ensures PrependCounted(added, CoverableRows(testId, coverables, k, count, rng, pos))
      == PrependCounted(added + block, CoverableRows(testId, coverables, k + 1, nextCount, rng, next))
  {
    CoverableRowsStep(testId, coverables, k, count, rng, pos);
    PrependCountedTwice(added, block, CoverableRows(testId, coverables, k + 1, nextCount, rng, next));
  }

  /** A coverable whose block fails fails the remaining rows, whatever came before. */
  lemma CoverableRowsFail(testId: string, coverables: seq<Element>, k: nat, count: int, rng: Stream, pos: nat, added: seq<Row>)
    requires k < |coverables| && CoverableBlock(testId, coverables[k], count, rng, pos).Err?
    ensures PrependCounted(added, CoverableRows(testId, coverables, k, count, rng, pos))
      == Err(CoverableBlock(testId, coverables[k], count, rng, pos).error)
  {
    CoverableRowsStep(testId, coverables, k, count, rng, pos);
  }

  /** The block a method built for coverable k advances the rows or fails them. */
  lemma CoverableRowsTracked(testId: string, coverables: seq<Element>, k: nat, count: int, rng: Stream, pos: nat,
                             added: seq<Row>, block: Res<seq<Row>>, nextCount: int, next: nat)
    requires k < |coverables| && TracksCounted(block, nextCount, next, CoverableBlock(testId, coverables[k], count, rng, pos))
    ensures block.Err? ==> PrependCounted(added, CoverableRows(testId, coverables, k, count, rng, pos)) == Err(block.error)
    ensures block.Ok? ==>
              PrependCounted(added, CoverableRows(testId, coverables, k, count, rng, pos))
              == PrependCounted(added + block.value, CoverableRows(testId, coverables, k + 1, nextCount, rng, next))
  {
    if block.Err? {
      CoverableRowsFail(testId, coverables, k, count, rng, pos, added);
    } else {
      CoverableRowsAdvance(testId, coverables, k, count, rng, pos, added, block.value, nextCount, next);
    }
  }

  /** The fixed head of the CreateCoverages table: fixture, set TestId, select submission. */
  function CoveragesHead(fixture: string, testId: string, number: string): seq<Row> {
    [FixtureRow(fixture), SetRow("TestId", testId, false), SelectSubmissionRow(SubmissionId(number))]
  }

  /** The head and the commit row create nothing: the table's numbering is that of its body. */
  lemma CoveragesFramed(fixture: string, testId: string, number: string, body: seq<Row>)
    requires CreatesFrom(body, testId, 0)
    ensures var rows := CoveragesHead(fixture, testId, number) + body + [CommitRow()];
      CreatesFrom(rows, testId, 0) && CreateCount(rows) == CreateCount(body)
  {
    var head := CoveragesHead(fixture, testId, number);
    CreatesNone(head, testId, 0);
    CreatesNone([CommitRow()], testId, CreateCount(body));
    CreatesAppend(head, body, testId, 0);
    CreatesAppend(head + body, [CommitRow()], testId, 0);
  }

  /**
   * CreateCoverages: the head, a block per selected coverable, then commit.
   * The table numbers its coverages 1, 2, ... across all coverables, at
   * least one per coverable, and it fails when no coverable is selected.
   */
  function CreateCoveragesRows(fixture: string, suiteId: string, number: string, root: Element, rng: Stream, pos: nat): Res<(seq<Row>, nat)> {
    var testId := TestId(suiteId, number, CreateCoverages);
    var product :- Find(root, "Product");
    var coverables :- SelectedFrom(FindAll(product, "Coverable"), 0, rng, pos);
    if coverables.0 == [] then Err(NoCoverables)
    else
      var body :- CoverableRows(testId, coverables.0, 0, 0, rng, coverables.1);
      Ok((CoveragesHead(fixture, testId, number) + body.0 + [CommitRow()], body.2))
  }

  /** Once the coverables are selected, the CreateCoverages table is its head, their rows and the commit row. */
  lemma CreateCoveragesRowsBody(fixture: string, suiteId: string, number: string, root: Element, rng: Stream, pos: nat,
                                coverables: seq<Element>, mid: nat)
    requires Find(root, "Product").Ok?
    requires SelectedFrom(FindAll(Find(root, "Product").value, "Coverable"), 0, rng, pos) == Ok((coverables, mid))
    requires coverables != []
    ensures CreateCoveragesRows(fixture, suiteId, number, root, rng, pos) ==
      (var body :- CoverableRows(TestId(suiteId, number, CreateCoverages), coverables, 0, 0, rng, mid);
       Ok((CoveragesHead(fixture, TestId(suiteId, number, CreateCoverages), number) + body.0 + [CommitRow()], body.2)))
  {
  }

  /**
   * CreateCoverages is framed by its head and the commit row, and the
   * coverages it creates are numbered 1, 2, ... across the whole table.
   */
  lemma CreateCoveragesRowsNumbered(fixture: string, suiteId: string, number: string, root: Element, rng: Stream, pos: nat)
    requires CreateCoveragesRows(fixture, suiteId, number, root, rng, pos).Ok?
    ensures |CreateCoveragesRows(fixture, suiteId, number, root, rng, pos).value.0| >= 4
    ensures CreateCoveragesRows(fixture, suiteId, number, root, rng, pos).value.0[..3] == CoveragesHead(fixture, TestId(suiteId, number, CreateCoverages), number)
    ensures CreateCoveragesRows(fixture, suiteId, number, root, rng, pos).value.0[|CreateCoveragesRows(fixture, suiteId, number, root, rng, pos).value.0| - 1] == CommitRow()
    ensures CreatesFrom(CreateCoveragesRows(fixture, suiteId, number, root, rng, pos).value.0, TestId(suiteId, number, CreateCoverages), 0)
    ensures CreateCount(CreateCoveragesRows(fixture, suiteId, number, root, rng, pos).value.0) >= 1
  {
    var testId := TestId(suiteId, number, CreateCoverages);
    var product := Find(root, "Product").value;
    var coverables := SelectedFrom(FindAll(product, "Coverable"), 0, rng, pos).value;
    CoverableRowsCreate(testId, coverables.0, 0, 0, rng, coverables.1);
    var body := CoverableRows(testId, coverables.0, 0, 0, rng, coverables.1).value.0;
    var head := CoveragesHead(fixture, testId, number);
    assert (head + body + [CommitRow()])[..3] == head;
    CoveragesFramed(fixture, testId, number, body);
  }

  // ---------------------------------------------------------------------------
  //  create_test_tables
  // ---------------------------------------------------------------------------

  /** The rows of the table for `role`, once its fixture and the suite id are known. */
  function RowsFor(role: Role, fixture: string, suiteId: string, number: string, root: Element, today: string, rng: Stream, pos: nat): Res<(seq<Row>, nat)> {
    match role
    case CreateSubmission => CreateSubmissionRows(fixture, suiteId, number, root, today, rng, pos)
    case AnswerQuestions => AnswerQuestionsRows(fixture, suiteId, number, root, rng, pos)
    case UpdateDwelling => UpdateDwellingRows(fixture, suiteId, number, root, rng, pos)
    case CreateCoverages => CreateCoveragesRows(fixture, suiteId, number, root, rng, pos)
    case QuoteIssue => Ok((QuoteIssueRows(fixture, suiteId, number), pos))
  }

  /** Every table starts with the row naming its fixture. */
  lemma RowsForFixture(role: Role, fixture: string, suiteId: string, number: string, root: Element, today: string, rng: Stream, pos: nat)
    ensures RowsFor(role, fixture, suiteId, number, root, today, rng, pos).Ok? ==>
      (RowsFor(role, fixture, suiteId, number, root, today, rng, pos).value.0 != []
       && RowsFor(role, fixture, suiteId, number, root, today, rng, pos).value.0[0] == FixtureRow(fixture))
  {
    if RowsFor(role, fixture, suiteId, number, root, today, rng, pos).Ok? {
      match role
      case AnswerQuestions =>
        assert RowsFor(role, fixture, suiteId, number, root, today, rng, pos).value.0[..2] == AnswerQuestionsHead(fixture);
      case CreateCoverages => CreateCoveragesRowsNumbered(fixture, suiteId, number, root, rng, pos);
      case _ =>
    }
  }

  /** The fixture class for one role, or the error the fixture setter raises when there is none. */
  function FixtureIn(fs: seq<Fixture>, role: Role): Res<string> {
    var found := FixtureFor(fs, RoleName(role));
    if found.None? then Err(FixtureMissing(RoleName(role))) else Ok(found.value)
  }

  /** The fixture class for each role, in table order; a role without one stops the run. */
  function FixturesFor(fs: seq<Fixture>, roles: seq<Role>): (r: Res<seq<string>>)
    ensures r.Ok? ==> |r.value| == |roles|
  {
    if roles == [] then Ok([])
    else
      var f :- FixtureIn(fs, roles[0]);
      var rest :- FixturesFor(fs, roles[1..]);
      Ok([f] + rest)
  }

  /**
   * FixturesFor succeeds exactly when every role has a fixture, and then
   * lists each role's fixture in role order; otherwise it names a role
   * that has none.
   */
  lemma {:induction false} FixturesForMeaning(fs: seq<Fixture>, roles: seq<Role>)
    ensures FixturesFor(fs, roles).Ok? ==>
      |FixturesFor(fs, roles).value| == |roles| && forall i | 0 <= i < |roles| :: FixtureFor(fs, RoleName(roles[i])) == Some(FixturesFor(fs, roles).value[i])
    ensures FixturesFor(fs, roles).Err? ==> exists i | 0 <= i < |roles| ::
      FixtureFor(fs, RoleName(roles[i])).None? && FixturesFor(fs, roles).error == FixtureMissing(RoleName(roles[i]))
    decreases |roles|
  {
    if roles != [] {
      FixturesForMeaning(fs, roles[1..]);
      assert forall i | 1 <= i < |roles| :: roles[i] == roles[1..][i - 1];
      var r := FixturesFor(fs, roles);
      if r.Err? && FixtureIn(fs, roles[0]).Ok? {
        var i :| 0 <= i < |roles[1..]| && FixtureFor(fs, RoleName(roles[1..][i])).None?
          && r.error == FixtureMissing(RoleName(roles[1..][i]));
        assert roles[i + 1] == roles[1..][i];
      }
    }
  }

  /** The fixture of each role, in role order, as the five table constructors look them up. */
  function RoleFixtures(fs: seq<Fixture>, root: Element): Res<seq<string>> {
    var loaded :- FixturesAccess(fs, root);
    FixturesFor(loaded, Roles)
  }

  /** What one table constructor's fixture lookup yields: the fixture for the role, or why there is none. */
  function FixtureLookup(fs: seq<Fixture>, root: Element, role: Role): Res<string> {
    var loaded :- FixturesAccess(fs, root);
    FixtureIn(loaded, role)
  }

  /** Once the fixture list is loaded, looking it up again gives the same list and the same fixtures. */
  lemma FixtureLookupLoaded(fs: seq<Fixture>, root: Element, role: Role)
    requires FixturesAccess(fs, root).Ok?
    ensures FixturesAccess(FixturesAccess(fs, root).value, root) == FixturesAccess(fs, root)
    ensures FixtureLookup(FixturesAccess(fs, root).value, root, role) == FixtureLookup(fs, root, role)
  {
  }

  /** The five constructors' lookups in role order, the first failure stopping the rest, give RoleFixtures. */
  lemma RoleFixturesInTurn(fs: seq<Fixture>, root: Element)
    ensures RoleFixtures(fs, root) ==
      (var cs :- FixtureLookup(fs, root, CreateSubmission);
       var aq :- FixtureLookup(fs, root, AnswerQuestions);
       var ud :- FixtureLookup(fs, root, UpdateDwelling);
       var cc :- FixtureLookup(fs, root, CreateCoverages);
       var qi :- FixtureLookup(fs, root, QuoteIssue);
       Ok([cs, aq, ud, cc, qi]))
  {
    if FixturesAccess(fs, root).Ok? {
      FixturesForRoles(FixturesAccess(fs, root).value);
    }
  }

  /** FixturesFor over the five roles, one lookup after another. */
  lemma FixturesForRoles(l: seq<Fixture>)
    ensures FixturesFor(l, Roles) ==
      (var cs :- FixtureIn(l, CreateSubmission);
       var aq :- FixtureIn(l, AnswerQuestions);
       var ud :- FixtureIn(l, UpdateDwelling);
       var cc :- FixtureIn(l, CreateCoverages);
       var qi :- FixtureIn(l, QuoteIssue);
       Ok([cs, aq, ud, cc, qi]))
  {
    FixturesForLastThree(l);
    FixturesForCons(l, AnswerQuestions, [UpdateDwelling, CreateCoverages, QuoteIssue]);
    FixturesForCons(l, CreateSubmission, [AnswerQuestions, UpdateDwelling, CreateCoverages, QuoteIssue]);
    assert Roles == [CreateSubmission] + [AnswerQuestions, UpdateDwelling, CreateCoverages, QuoteIssue];
    forall cs, aq, ud, cc, qi: string ensures [cs] + ([aq] + [ud, cc, qi]) == [cs, aq, ud, cc, qi] {
    }
  }

  /** FixturesFor over the last three roles, one lookup after another. */
  lemma FixturesForLastThree(l: seq<Fixture>)
    ensures FixturesFor(l, [UpdateDwelling, CreateCoverages, QuoteIssue]) ==
      (var ud :- FixtureIn(l, UpdateDwelling);
       var cc :- FixtureIn(l, CreateCoverages);
       var qi :- FixtureIn(l, QuoteIssue);
       Ok([ud, cc, qi]))
  {
    FixturesForCons(l, QuoteIssue, []);
    FixturesForCons(l, CreateCoverages, [QuoteIssue]);
    FixturesForCons(l, UpdateDwelling, [CreateCoverages, QuoteIssue]);
    assert FixturesFor(l, []) == Ok([]);
    forall ud, cc, qi: string ensures [ud] + ([cc] + ([qi] + [])) == [ud, cc, qi] {
    }
  }

  /** FixturesFor looks up the first role, then the others. */
  lemma FixturesForCons(fs: seq<Fixture>, role: Role, roles: seq<Role>)
    ensures FixturesFor(fs, [role] + roles) ==
      (var f :- FixtureIn(fs, role); var rest :- FixturesFor(fs, roles); Ok([f] + rest))
  {
    assert ([role] + roles)[1..] == roles;
  }

  /** The tables for roles k.. built in order, each continuing the draws where the previous one stopped. */
  function TablesFrom(fixtures: seq<string>, k: nat, suiteId: string, number: string, root: Element, today: string, rng: Stream, pos: nat): Res<(seq<seq<Row>>, nat)>
    requires |fixtures| == |Roles| && k <= |Roles|
    decreases |Roles| - k
  {
    if k == |Roles| then Ok(([], pos))
    else
      var t :- RowsFor(Roles[k], fixtures[k], suiteId, number, root, today, rng, pos);
      var rest :- TablesFrom(fixtures, k + 1, suiteId, number, root, today, rng, t.1);
      Ok(([t.0] + rest.0, rest.1))
  }

  /** A table per role k.., QuoteIssue's last. */
  lemma {:induction false} TablesFromLast(fixtures: seq<string>, k: nat, suiteId: string, number: string, root: Element, today: string, rng: Stream, pos: nat)
    requires |fixtures| == |Roles| && k <= |Roles|
    ensures TablesFrom(fixtures, k, suiteId, number, root, today, rng, pos).Ok? ==>
      |TablesFrom(fixtures, k, suiteId, number, root, today, rng, pos).value.0| == |Roles| - k
    ensures TablesFrom(fixtures, k, suiteId, number, root, today, rng, pos).Ok? && k < |Roles| ==>
      Last(TablesFrom(fixtures, k, suiteId, number, root, today, rng, pos).value.0) == QuoteIssueRows(fixtures[4], suiteId, number)
    decreases |Roles| - k
  {
    if k < |Roles| {
      var t := RowsFor(Roles[k], fixtures[k], suiteId, number, root, today, rng, pos);
      if t.Ok? {
        TablesFromLast(fixtures, k + 1, suiteId, number, root, today, rng, t.value.1);
        var rest := TablesFrom(fixtures, k + 1, suiteId, number, root, today, rng, t.value.1);
        if rest.Ok? {
          RolesInOrder();
          assert TablesFrom(fixtures, k, suiteId, number, root, today, rng, pos) == Ok(([t.value.0] + rest.value.0, rest.value.1));
          if k + 1 < |Roles| {
            assert Last([t.value.0] + rest.value.0) == Last(rest.value.0);
          }
        }
      }
    }
  }

  /** The last of a nonempty list of tables. */
  function Last(tables: seq<seq<Row>>): seq<Row>
    requires tables != []
  {
    tables[|tables| - 1]
  }

  /** Each table starts with the row naming the fixture at the same place in `fixtures`. */
  predicate FixturesFirst(tables: seq<seq<Row>>, fixtures: seq<string>) {
    |tables| == |fixtures| && forall i | 0 <= i < |tables| :: tables[i] != [] && tables[i][0] == FixtureRow(fixtures[i])
  }

  lemma FixturesFirstCons(t: seq<Row>, rest: seq<seq<Row>>, f: string, fs: seq<string>)
    requires t != [] && t[0] == FixtureRow(f) && FixturesFirst(rest, fs)
    ensures FixturesFirst([t] + rest, [f] + fs)
  {
    var tables := [t] + rest;
    var names := [f] + fs;
    forall i | 1 <= i < |tables| ensures tables[i] != [] && tables[i][0] == FixtureRow(names[i]) {
      var j := i - 1;
      assert tables[i] == rest[j] && names[i] == fs[j];
    }
  }

  /** The table for each role k.. starts with that role's fixture. */
  lemma {:induction false} TablesFromFixtures(fixtures: seq<string>, k: nat, suiteId: string, number: string, root: Element, today: string, rng: Stream, pos: nat)
    requires |fixtures| == |Roles| && k <= |Roles|
    ensures TablesFrom(fixtures, k, suiteId, number, root, today, rng, pos).Ok? ==>
      FixturesFirst(TablesFrom(fixtures, k, suiteId, number, root, today, rng, pos).value.0, fixtures[k..])
    decreases |Roles| - k
  {
    if k < |Roles| {
      var t := RowsFor(Roles[k], fixtures[k], suiteId, number, root, today, rng, pos);
      var k1, p1 := k + 1, if t.Ok? then t.value.1 else pos;
      TablesFromFixtures(fixtures, k1, suiteId, number, root, today, rng, p1);
      TablesFromFixturesStep(fixtures, k, suiteId, number, root, today, rng, pos, k1, p1);
    }
  }

  /** A table that starts with its fixture row, before tables that do, keeps every table starting with its fixture row. */
  lemma TablesFromFixturesStep(fixtures: seq<string>, k: nat, suiteId: string, number: string, root: Element, today: string, rng: Stream, pos: nat,
                               k1: nat, p1: nat)
    requires |fixtures| == |Roles| && k < |Roles| && k1 == k + 1
    requires RowsFor(Roles[k], fixtures[k], suiteId, number, root, today, rng, pos).Ok? ==>
      RowsFor(Roles[k], fixtures[k], suiteId, number, root, today, rng, pos).value.1 == p1
    requires TablesFrom(fixtures, k1, suiteId, number, root, today, rng, p1).Ok? ==>
      FixturesFirst(TablesFrom(fixtures, k1, suiteId, number, root, today, rng, p1).value.0, fixtures[k1..])
    ensures TablesFrom(fixtures, k, suiteId, number, root, today, rng, pos).Ok? ==>
      FixturesFirst(TablesFrom(fixtures, k, suiteId, number, root, today, rng, pos).value.0, fixtures[k..])
  {
    var t := RowsFor(Roles[k], fixtures[k], suiteId, number, root, today, rng, pos);
    TablesFromStep(fixtures, k, suiteId, number, root, today, rng, pos);
    if t.Ok? {
      RowsForFixture(Roles[k], fixtures[k], suiteId, number, root, today, rng, pos);
      var rest := TablesFrom(fixtures, k1, suiteId, number, root, today, rng, p1);
      if rest.Ok? {
        FixturesFirstCons(t.value.0, rest.value.0, fixtures[k], fixtures[k1..]);
        assert fixtures[k..] == [fixtures[k]] + fixtures[k1..];
      }
    }
  }

  /** After the tables so far, a table that is built moves the remaining tables on by one role. */
  lemma TablesFromAdvance(fixtures: seq<string>, k: nat, suiteId: string, number: string, root: Element, today: string, rng: Stream, pos: nat,
                          added: seq<seq<Row>>, rows: seq<Row>, next: nat)
    requires |fixtures| == |Roles| && k < |Roles|
    requires RowsFor(Roles[k], fixtures[k], suiteId, number, root, today, rng, pos) == Ok((rows, next))
    ensures Prepend(added, TablesFrom(fixtures, k, suiteId, number, root, today, rng, pos))
      == Prepend(added + [rows], TablesFrom(fixtures, k + 1, suiteId, number, root, today, rng, next))
  {
    TablesFromStep(fixtures, k, suiteId, number, root, today, rng, pos);
    PrependTwice(added, [rows], TablesFrom(fixtures, k + 1, suiteId, number, root, today, rng, next));
  }

  /** A table that fails fails the remaining tables, whatever came before. */
  lemma TablesFromFail(fixtures: seq<string>, k: nat, suiteId: string, number: string, root: Element, today: string, rng: Stream, pos: nat,
                       added: seq<seq<Row>>)
    requires |fixtures| == |Roles| && k < |Roles|
    requires RowsFor(Roles[k], fixtures[k], suiteId, number, root, today, rng, pos).Err?
    ensures Prepend(added, TablesFrom(fixtures, k, suiteId, number, root, today, rng, pos))
      == Err(RowsFor(Roles[k], fixtures[k], suiteId, number, root, today, rng, pos).error)
  {
    TablesFromStep(fixtures, k, suiteId, number, root, today, rng, pos);
  }

  /** The table for role k, as a method built it, advances the tables or fails them. */
  lemma TablesFromTracked(fixtures: seq<string>, k: nat, suiteId: string, number: string, root: Element, today: string, rng: Stream, pos: nat,
                          added: seq<seq<Row>>, rows: Res<seq<Row>>, next: nat)
    requires |fixtures| == |Roles| && k < |Roles|
    requires Tracks(rows, next, RowsFor(Roles[k], fixtures[k], suiteId, number, root, today, rng, pos))
    ensures rows.Err? ==> Prepend(added, TablesFrom(fixtures, k, suiteId, number, root, today, rng, pos)) == Err(rows.error)
    ensures rows.Ok? ==>
              Prepend(added, TablesFrom(fixtures, k, suiteId, number, root, today, rng, pos))
              == Prepend(added + [rows.value], TablesFrom(fixtures, k + 1, suiteId, number, root, today, rng, next))
  {
    if rows.Err? {
      TracksErr(rows, next, RowsFor(Roles[k], fixtures[k], suiteId, number, root, today, rng, pos));
      TablesFromFail(fixtures, k, suiteId, number, root, today, rng, pos, added);
    } else {
      TracksOk(rows, next, RowsFor(Roles[k], fixtures[k], suiteId, number, root, today, rng, pos));
      TablesFromAdvance(fixtures, k, suiteId, number, root, today, rng, pos, added, rows.value, next);
    }
  }

  /** One table more: it is built before the tables of the roles after it, which draw from where it stopped. */
  lemma TablesFromStep(fixtures: seq<string>, k: nat, suiteId: string, number: string, root: Element, today: string, rng: Stream, pos: nat)
    requires |fixtures| == |Roles| && k < |Roles|
    ensures RowsFor(Roles[k], fixtures[k], suiteId, number, root, today, rng, pos).Err? ==>
      TablesFrom(fixtures, k, suiteId, number, root, today, rng, pos) == Err(RowsFor(Roles[k], fixtures[k], suiteId, number, root, today, rng, pos).error)
    ensures RowsFor(Roles[k], fixtures[k], suiteId, number, root, today, rng, pos).Ok? ==>
      TablesFrom(fixtures, k, suiteId, number, root, today, rng, pos)
      == Prepend([RowsFor(Roles[k], fixtures[k], suiteId, number, root, today, rng, pos).value.0],
                 TablesFrom(fixtures, k + 1, suiteId, number, root, today, rng, RowsFor(Roles[k], fixtures[k], suiteId, number, root, today, rng, pos).value.1))
  {
  }

  /**
   * create_test_tables, given what the fixtures list holds beforehand: the
   * fixture of every role is looked up first (the tables are constructed
   * before any is filled), then the tables are built in the order
   * CreateSubmission, AnswerQuestions, UpdateDwelling, CreateCoverages,
   * QuoteIssue. QuoteIssue is built whatever should_quote says.
   */
  function TestTables(fs: seq<Fixture>, number: string, root: Element, today: string, rng: Stream, pos: nat): Res<(seq<seq<Row>>, nat)> {
    var fixtures :- RoleFixtures(fs, root);
    var suiteId :- FetchString(root, "SuiteId");
    TablesFrom(fixtures, 0, suiteId, number, root, today, rng, pos)
  }

  /** The tables fail as the fixture lookup fails. */
  lemma TestTablesFixturesErr(fs: seq<Fixture>, number: string, root: Element, today: string, rng: Stream, pos: nat)
    requires RoleFixtures(fs, root).Err?
    ensures TestTables(fs, number, root, today, rng, pos) == Err(RoleFixtures(fs, root).error)
  {
  }

  /** The tables fail as the suite id fails, once the fixtures are found. */
  lemma TestTablesSuiteErr(fs: seq<Fixture>, number: string, root: Element, today: string, rng: Stream, pos: nat)
    requires RoleFixtures(fs, root).Ok? && FetchString(root, "SuiteId").Err?
    ensures TestTables(fs, number, root, today, rng, pos) == Err(FetchString(root, "SuiteId").error)
  {
  }

  /** With the fixtures and the suite id found, the tables are those the roles build in turn. */
  lemma TestTablesOk(fs: seq<Fixture>, number: string, root: Element, today: string, rng: Stream, pos: nat, fixtures: seq<string>, suiteId: string)
    requires RoleFixtures(fs, root) == Ok(fixtures) && FetchString(root, "SuiteId") == Ok(suiteId)
    ensures TestTables(fs, number, root, today, rng, pos) == TablesFrom(fixtures, 0, suiteId, number, root, today, rng, pos)
  {
  }

  /** All five tables are built, QuoteIssue last, whether or not the Policy asks for a quote. */
  lemma QuoteIssueAlwaysBuilt(fs: seq<Fixture>, number: string, root: Element, today: string, rng: Stream, pos: nat)
    requires TestTables(fs, number, root, today, rng, pos).Ok?
    ensures FixturesAccess(fs, root).Ok? && FixtureFor(FixturesAccess(fs, root).value, "QuoteIssue").Some?
    ensures FetchString(root, "SuiteId").Ok?
    ensures var tables := TestTables(fs, number, root, today, rng, pos).value.0;
      && |tables| == 5
      && Last(tables) == QuoteIssueRows(FixtureFor(FixturesAccess(fs, root).value, "QuoteIssue").value, FetchString(root, "SuiteId").value, number)
  {
    assert RoleFixtures(fs, root).Ok? && FetchString(root, "SuiteId").Ok?;
    var loaded := FixturesAccess(fs, root).value;
    var fixtures := FixturesFor(loaded, Roles).value;
    var suiteId := FetchString(root, "SuiteId").value;
    assert TestTables(fs, number, root, today, rng, pos) == TablesFrom(fixtures, 0, suiteId, number, root, today, rng, pos);
    TablesFromLast(fixtures, 0, suiteId, number, root, today, rng, pos);
    RolesInOrder();
    FixturesForMeaning(loaded, Roles);
  }
}
