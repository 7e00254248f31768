/**
 * The test table objects: a table accumulates rows in place through add_row,
 * a column table counts its rows, an action table issues row commands, and
 * each role fills its table from the product specification, drawing as it
 * goes. Every builder is proved to produce exactly the rows, the draws and
 * the errors that TableRows describes.
 */
module TestCaseTable {
  import opened Wrappers
  import opened Errors
  import opened Numbers
  import opened Xml
  import opened Selection
  import opened ProductSpecs
  import opened TableRows

  class TestTable {
    /** role and role_abbreviation, fixed by the subclass */
    const role: Role
    /** fixture: the class that fetch_fixture found for the role */
    const fixture: string
    /** suite_id, as the product specification gives it */
    const suiteId: string
    /** test_case_number */
    const number: string
    /** The tr elements of the table, in order. */
    var rows: seq<Row>
    /** row_number of a column table: -1 before the fixture row, so the first data row is 1. */
    var rowNumber: int
    /** headings of a column table */
    var headings: seq<string>
    /** is_unique: one flag per heading */
    var isUnique: seq<bool>
    /** coverage_count of the CreateCoverages table */
    var coverageCount: int

    /** The table as the constructors leave it, before create_test_table. */
    ghost predicate Initial()
      reads this
    {
      && rows == [] && rowNumber == -1 && coverageCount == 0
      && headings == InitialHeadings(role) && isUnique == InitialUnique(role)
    }

    constructor (role: Role, fixture: string, suiteId: string, number: string)
      ensures this.role == role && this.fixture == fixture && this.suiteId == suiteId && this.number == number
      ensures Initial()
    {
      this.role := role;
      this.fixture := fixture;
      this.suiteId := suiteId;
      this.number := number;
      rows := [];
      rowNumber := -1;
      headings := InitialHeadings(role);
      isUnique := InitialUnique(role);
      coverageCount := 0;
    }

    // -------------------------------------------------------------------------
    //  add_row and add_fixture
    // -------------------------------------------------------------------------

    /**
     * add_row: one td per value, marked unique where is_unique says so; a
     * column table also advances its row number. Earlier rows stay as they are.
     */
    method AddRow(values: seq<string>, isUnique: Option<seq<bool>>)
      requires |values| > 0
      requires isUnique.Some? ==> |isUnique.value| == |values|
      modifies this`rows, this`rowNumber
      ensures rows == old(rows) + [RowOf(values, isUnique)]
      ensures rowNumber == old(rowNumber) + (if IsColumn(role) then 1 else 0)
    {
      var cells: seq<string> := [];
      var flags: seq<bool> := [];
      var index := 0;
      while index < |values|
        invariant 0 <= index <= |values|
        invariant cells == values[..index] && |flags| == index
        invariant forall j | 0 <= j < index :: flags[j] == (isUnique.Some? && isUnique.value[j])
      {
        cells := cells + [values[index]];
        flags := flags + [isUnique.Some? && isUnique.value[index]];
        index := index + 1;
      }
      assert cells == values;
      assert flags == RowOf(values, isUnique).unique;
      rows := rows + [Row(cells, flags)];
      if IsColumn(role) {
        rowNumber := rowNumber + 1;
      }
    }

    /** add_fixture */
    method AddFixture()
      modifies this`rows, this`rowNumber
      ensures rows == old(rows) + [FixtureRow(fixture)]
      ensures rowNumber == old(rowNumber) + (if IsColumn(role) then 1 else 0)
    {
      AddRow([fixture], None);
    }

    // -------------------------------------------------------------------------
    //  Action fixture commands
    // -------------------------------------------------------------------------

    /** set_property */
    method SetProperty(name: string, value: string, unique: bool)
      requires |name| > 0 && |value| > 0
      modifies this`rows, this`rowNumber
      ensures rows == old(rows) + [SetRow(name, value, unique)]
      ensures rowNumber == old(rowNumber) + (if IsColumn(role) then 1 else 0)
    {
      AddRow(["set", name, value, ""], Some([unique, false, false, false]));
    }

    /** select_submission */
    method SelectSubmission()
      modifies this`rows, this`rowNumber
      ensures rows == old(rows) + [SelectSubmissionRow(SubmissionId(number))]
      ensures rowNumber == old(rowNumber) + (if IsColumn(role) then 1 else 0)
    {
      AddRow(["select", "submission", SubmissionId(number), ""], Some([true, false, false, false]));
    }

    /** select_coverable */
    method SelectCoverable(name: string)
      requires |name| > 0
      modifies this`rows, this`rowNumber
      ensures rows == old(rows) + [SelectCoverableRow(name)]
      ensures rowNumber == old(rowNumber) + (if IsColumn(role) then 1 else 0)
    {
      AddRow(["select", "coverable", name, ""], None);
    }

    /** create_coverage */
    method CreateCoverage(code: string, count: int)
      requires |code| > 0
      modifies this`rows, this`rowNumber
      ensures rows == old(rows) + [CreateRow(TestId(suiteId, number, role), count, code)]
      ensures rowNumber == old(rowNumber) + (if IsColumn(role) then 1 else 0)
    {
      AddRow(["create", "coverage", RowId(TestId(suiteId, number, role), count), code], None);
    }

    /** add_with */
    method AddWith(termCode: string, value: string)
      modifies this`rows, this`rowNumber
      ensures rows == old(rows) + [WithRow(termCode, value)]
      ensures rowNumber == old(rowNumber) + (if IsColumn(role) then 1 else 0)
    {
      AddRow(["with", termCode, value, ""], None);
    }

    /** commit */
    method Commit()
      modifies this`rows, this`rowNumber
      ensures rows == old(rows) + [CommitRow()]
      ensures rowNumber == old(rowNumber) + (if IsColumn(role) then 1 else 0)
    {
      AddRow(["commit", "", "", ""], None);
    }

    // -------------------------------------------------------------------------
    //  create_test_table
    // -------------------------------------------------------------------------

    /** The table's create_test_table, dispatched on its role as the subclasses do. */
    method CreateTestTable(spec: ProductSpec, today: string) returns (r: Res<seq<Row>>)
      requires Initial()
      modifies this, spec`drawn
      ensures Tracks(r, spec.drawn, RowsFor(role, fixture, suiteId, number, spec.root, today, spec.rng, old(spec.drawn)))
      ensures r.Ok? ==> rows == r.value
    {
      match role
      case CreateSubmission =>
        r := CreateSubmissionTable(spec, today);
      case AnswerQuestions =>
        r := AnswerQuestionsTable(spec);
      case UpdateDwelling =>
        r := UpdateDwellingTable(spec);
      case CreateCoverages =>
        r := CreateCoveragesTable(spec);
      case QuoteIssue =>
        r := QuoteIssueTable();
    }

    /** CreateSubmissionTestTable.create_test_table */
    method CreateSubmissionTable(spec: ProductSpec, today: string) returns (r: Res<seq<Row>>)
      requires role == CreateSubmission && Initial()
      modifies this`rows, this`rowNumber, spec`drawn
      ensures Tracks(r, spec.drawn, CreateSubmissionRows(fixture, suiteId, number, spec.root, today, spec.rng, old(spec.drawn)))
      ensures r.Ok? ==> rows == r.value
    {
      AddFixture();
      AddRow(headings, Some(isUnique));
      var account :- spec.AccountNumber();
      ghost var mid := spec.drawn;
      var date :- spec.SubmissionDate(today);
      AddRow([RowId(TestId(suiteId, number, role), rowNumber), SubmissionId(number), account, date, "true"], None);
      CreateSubmissionRowsOk(fixture, suiteId, number, spec.root, today, spec.rng, old(spec.drawn), account, mid, date, spec.drawn);
      assert rows == [FixtureRow(fixture), RowOf(InitialHeadings(CreateSubmission), Some(InitialUnique(CreateSubmission))),
                      RowOf([RowId(TestId(suiteId, number, CreateSubmission), 1), SubmissionId(number), account, date, "true"], None)];
      return Ok(rows);
    }

    /** QuiteIssueTestTable.create_test_table: no draw, no failure. */
    method QuoteIssueTable() returns (r: Res<seq<Row>>)
      requires role == QuoteIssue && Initial()
      modifies this`rows, this`rowNumber
      ensures r == Ok(QuoteIssueRows(fixture, suiteId, number)) && rows == r.value
    {
      AddFixture();
      AddRow(headings, Some(isUnique));
      AddRow([TestId(suiteId, number, role), SubmissionId(number), "true", "true"], None);
      assert rows == [FixtureRow(fixture), RowOf(InitialHeadings(QuoteIssue), Some(InitialUnique(QuoteIssue))),
                      RowOf([TestId(suiteId, number, QuoteIssue), SubmissionId(number), "true", "true"], None)];
      return Ok(rows);
    }

    /** AnswerQuestionsTestTable.create_test_table and create_rows */
    method AnswerQuestionsTable(spec: ProductSpec) returns (r: Res<seq<Row>>)
      requires role == AnswerQuestions && Initial()
      modifies this`rows, this`rowNumber, spec`drawn
      ensures Tracks(r, spec.drawn, AnswerQuestionsRows(fixture, suiteId, number, spec.root, spec.rng, old(spec.drawn)))
      ensures r.Ok? ==> rows == r.value
    {
      AddFixture();
      AddRow(headings, Some(isUnique));
      assert rows == AnswerQuestionsHead(fixture);
      var sets :- QuestionSets(spec.root);
      var block :- ProcessQuestionSets(spec, sets);
      return Ok(rows);
    }

    /** The loop of create_rows: the rows of each question set in turn, numbered on across the sets. */
    method ProcessQuestionSets(spec: ProductSpec, sets: seq<Element>) returns (r: Res<seq<Row>>)
      requires role == AnswerQuestions && rowNumber == |rows| - 1
      modifies this`rows, this`rowNumber, spec`drawn
      ensures rowNumber == |rows| - 1
      ensures Tracks(r, spec.drawn, QuestionSetRows(TestId(suiteId, number, role), SubmissionId(number), sets, 0, old(rowNumber), spec.rng, old(spec.drawn)))
      ensures r.Ok? ==> rows == old(rows) + r.value
    {
      var testId := TestId(suiteId, number, role);
      ghost var start, whole := rows, QuestionSetRows(testId, SubmissionId(number), sets, 0, rowNumber, spec.rng, spec.drawn);
      var added: seq<Row> := [];
      PrependNothing(whole);
      var i := 0;
      while i < |sets|
        invariant 0 <= i <= |sets|
        invariant rowNumber == |rows| - 1 && rows == start + added
        invariant whole == Prepend(added, QuestionSetRows(testId, SubmissionId(number), sets, i, rowNumber, spec.rng, spec.drawn))
      {
        ghost var n, d := rowNumber, spec.drawn;
        var block := ProcessQuestionSet(spec, sets[i]);
        QuestionSetRowsTracked(testId, SubmissionId(number), sets, i, n, spec.rng, d, added, block, spec.drawn);
        if block.Err? {
          return Err(block.error);
        }
        assert rowNumber == NextRowNumber(n, block.value);
        AppendAssoc(start, added, block.value);
        added := added + block.value;
        i := i + 1;
      }
      assert QuestionSetRows(testId, SubmissionId(number), sets, i, rowNumber, spec.rng, spec.drawn) == Ok(([], spec.drawn));
      assert added + [] == added;
      return Ok(added);
    }

    /** process_question_set: a numbered row per question of the set; it returns the rows it added. */
    method ProcessQuestionSet(spec: ProductSpec, questionSet: Element) returns (r: Res<seq<Row>>)
      requires role == AnswerQuestions && rowNumber == |rows| - 1
      modifies this`rows, this`rowNumber, spec`drawn
      ensures rowNumber == |rows| - 1
      ensures Tracks(r, spec.drawn, QuestionSetBlock(TestId(suiteId, number, role), SubmissionId(number), questionSet, old(rowNumber), spec.rng, old(spec.drawn)))
      ensures r.Ok? ==> rows == old(rows) + r.value
    {
      var code :- FetchText(questionSet, "QuestionSetCode");
      QuestionSetBlockRows(TestId(suiteId, number, role), SubmissionId(number), questionSet, rowNumber, spec.rng, spec.drawn, code);
      r := ProcessQuestions(spec, code, Questions(questionSet));
    }

    /** The loop of process_question_set: a row per question of the set. */
    method ProcessQuestions(spec: ProductSpec, code: Option<string>, questions: seq<Element>) returns (r: Res<seq<Row>>)
      requires role == AnswerQuestions && rowNumber == |rows| - 1
      modifies this`rows, this`rowNumber, spec`drawn
      ensures rowNumber == |rows| - 1
      ensures Tracks(r, spec.drawn, QuestionRows(TestId(suiteId, number, role), SubmissionId(number), code, questions, 0, old(rowNumber), spec.rng, old(spec.drawn)))
      ensures r.Ok? ==> rows == old(rows) + r.value
    {
      var testId := TestId(suiteId, number, role);
      ghost var start, whole := rows, QuestionRows(testId, SubmissionId(number), code, questions, 0, rowNumber, spec.rng, spec.drawn);
      var added: seq<Row> := [];
      PrependNothing(whole);
      var i := 0;
      while i < |questions|
        invariant 0 <= i <= |questions|
        invariant rowNumber == |rows| - 1 && rows == start + added
        invariant whole == Prepend(added, QuestionRows(testId, SubmissionId(number), code, questions, i, rowNumber, spec.rng, spec.drawn))
      {
        ghost var n, d := rowNumber, spec.drawn;
        var row := ProcessQuestion(spec, code, questions[i]);
        QuestionRowsTracked(testId, SubmissionId(number), code, questions, i, n, spec.rng, d, added, row, spec.drawn);
        if row.Err? {
          return Err(row.error);
        }
        assert rowNumber == n + 1;
        AppendAssoc(start, added, [row.value]);
        added := added + [row.value];
        i := i + 1;
      }
      assert QuestionRows(testId, SubmissionId(number), code, questions, i, rowNumber, spec.rng, spec.drawn) == Ok(([], spec.drawn));
      assert added + [] == added;
      return Ok(added);
    }

    /** The body of process_question_set's loop: create_values for the question, then add_row. */
    method ProcessQuestion(spec: ProductSpec, code: Option<string>, question: Element) returns (r: Res<Row>)
      requires role == AnswerQuestions && rowNumber == |rows| - 1
      modifies this`rows, this`rowNumber, spec`drawn
      ensures rowNumber == |rows| - 1 && rowNumber == old(rowNumber) + (if r.Ok? then 1 else 0)
      ensures Tracks(r, spec.drawn, QuestionRow(TestId(suiteId, number, role), SubmissionId(number), code, question, old(rowNumber), spec.rng, old(spec.drawn)))
      ensures r.Ok? ==> rows == old(rows) + [r.value]
    {
      var values :- CreateQuestionValues(spec, code, question);
      AddRow(values, None);
      return Ok(RowOf(values, None));
    }

    /** AnswerQuestionsTestTable.create_values: the values of the next question row, numbered with the current row number. */
    method CreateQuestionValues(spec: ProductSpec, code: Option<string>, question: Element) returns (r: Res<seq<string>>)
      modifies spec`drawn
      ensures Tracks(r, spec.drawn, QuestionValues(TestId(suiteId, number, role), SubmissionId(number), code, question, rowNumber, spec.rng, old(spec.drawn)))
      ensures r.Ok? ==> |r.value| == 6
    {
      var qa :- spec.FetchQuestionCodeAndAnswer(question);
      return Ok([RowId(TestId(suiteId, number, role), rowNumber), SubmissionId(number), Cell(code), Cell(qa.0), Cell(qa.1), "true"]);
    }

    /** fetch_dwelling: the first coverable of the Product named HOPDwelling. */
    static method FetchDwelling(root: Element) returns (r: Res<Element>)
      ensures r == Dwelling(root)
    {
      var product :- Find(root, "Product");
      var coverables := FindAll(product, "Coverable");
      var i := 0;
      while i < |coverables|
        invariant 0 <= i <= |coverables|
        invariant DwellingFrom(coverables, 0) == DwellingFrom(coverables, i)
      {
        var name :- FetchText(coverables[i], "CoverableName");
        if name == Some("HOPDwelling") {
          return Ok(coverables[i]);
        }
        i := i + 1;
      }
      return Err(DwellingMissing);
    }

    /**
     * update_headings: a heading per property of the dwelling and a False
     * flag beside each, then Valid(); the two lists grow in lockstep.
     */
    method UpdateHeadings(spec: ProductSpec) returns (r: Res<seq<Option<string>>>)
      requires role == UpdateDwelling && headings == InitialHeadings(role) && isUnique == InitialUnique(role)
      modifies this`headings, this`isUnique, spec`drawn
      ensures Tracks(r, spec.drawn, DwellingNames(spec.root, spec.rng, old(spec.drawn)))
      ensures |headings| == |isUnique|
      ensures r.Ok? ==> headings == DwellingHeadings(r.value) && isUnique == DwellingUnique(r.value)
    {
      var dwelling :- FetchDwelling(spec.root);
      var names :- spec.FetchPropertyHeadings(dwelling);
      var i := 0;
      while i < |names|
        modifies this`headings, this`isUnique
        invariant 0 <= i <= |names|
        invariant |headings| == |isUnique| == 2 + i
        invariant headings == InitialHeadings(role) + Cells(names[..i])
        invariant isUnique == InitialUnique(role) + Falses(i)
      {
        CellsSnoc(names, i);
        AppendAssoc(InitialHeadings(role), Cells(names[..i]), [Cell(names[i])]);
        FalsesSnoc(i);
        AppendAssoc(InitialUnique(role), Falses(i), [false]);
        headings := headings + [Cell(names[i])];
        isUnique := isUnique + [false];
        i := i + 1;
      }
      headings := headings + ["Valid()"];
      isUnique := isUnique + [false];
      assert names[..i] == names;
      return Ok(names);
    }

    /** UpdateDwellingTestTable.create_row: test id, submission id, the dwelling's property values, "true". */
    method DwellingRow(spec: ProductSpec) returns (r: Res<seq<Option<string>>>)
      requires role == UpdateDwelling
      modifies this`rows, this`rowNumber, spec`drawn
      ensures Tracks(r, spec.drawn, DwellingValues(spec.root, spec.rng, old(spec.drawn)))
      ensures r.Ok? ==> rows == old(rows) + [DwellingDataRow(suiteId, number, r.value)]
      ensures rowNumber == old(rowNumber) + (if r.Ok? then 1 else 0)
    {
      var dwelling :- FetchDwelling(spec.root);
      var values :- spec.FetchPropertyValues(dwelling);
      var row := [TestId(suiteId, number, role), SubmissionId(number)];
      var i := 0;
      while i < |values|
        modifies {}
        invariant 0 <= i <= |values|
        invariant row == [TestId(suiteId, number, role), SubmissionId(number)] + Cells(values[..i])
      {
        CellsSnoc(values, i);
        AppendAssoc([TestId(suiteId, number, role), SubmissionId(number)], Cells(values[..i]), [Cell(values[i])]);
        row := row + [Cell(values[i])];
        i := i + 1;
      }
      row := row + ["true"];
      assert values[..i] == values;
      AddRow(row, None);
      return Ok(values);
    }

    /** UpdateDwellingTestTable.create_test_table */
    method UpdateDwellingTable(spec: ProductSpec) returns (r: Res<seq<Row>>)
      requires role == UpdateDwelling && Initial()
      modifies this`rows, this`rowNumber, this`headings, this`isUnique, spec`drawn
      ensures Tracks(r, spec.drawn, UpdateDwellingRows(fixture, suiteId, number, spec.root, spec.rng, old(spec.drawn)))
      ensures r.Ok? ==> rows == r.value
    {
      ghost var start := spec.drawn;
      AddFixture();
      var names := UpdateHeadings(spec);
      if names.Err? {
        UpdateDwellingRowsNamesErr(fixture, suiteId, number, spec.root, spec.rng, start);
        return Err(names.error);
      }
      ghost var mid := spec.drawn;
      AddRow(headings, Some(isUnique));
      var values := DwellingRow(spec);
      if values.Err? {
        UpdateDwellingRowsValuesErr(fixture, suiteId, number, spec.root, spec.rng, start, mid);
        return Err(values.error);
      }
      UpdateDwellingRowsOk(fixture, suiteId, number, spec.root, spec.rng, start, names.value, mid, values.value, spec.drawn);
      assert rows == [FixtureRow(fixture), RowOf(DwellingHeadings(names.value), Some(DwellingUnique(names.value))), DwellingDataRow(suiteId, number, values.value)];
      return Ok(rows);
    }

    /** process_coverage_term: a "with" row whose value must be neither None nor empty. */
    method ProcessCoverageTerm(spec: ProductSpec, term: Element) returns (r: Res<Row>)
      modifies this`rows, this`rowNumber, spec`drawn
      ensures Tracks(r, spec.drawn, TermRow(term, spec.rng, old(spec.drawn)))
      ensures r.Ok? ==> rows == old(rows) + [r.value]
      ensures rowNumber == old(rowNumber) + (if r.Ok? && IsColumn(role) then 1 else 0)
    {
      var code :- FetchText(term, "CoverageTermCode");
      var value :- spec.FetchCoverageTermValue(term);
      if value.None? || value.value == "" {
        return Err(EmptyTermValue(code));
      }
      AddWith(Cell(code), value.value);
      return Ok(WithRow(Cell(code), value.value));
    }

    /** process_coverage: the count goes up, then the create row under the new count, then a row per term. */
    method ProcessCoverage(spec: ProductSpec, coverage: Element) returns (r: Res<seq<Row>>)
      requires role == CreateCoverages
      modifies this`rows, this`rowNumber, this`coverageCount, spec`drawn
      ensures coverageCount == old(coverageCount) + 1
      ensures Tracks(r, spec.drawn, CoverageBlock(TestId(suiteId, number, role), coverage, old(coverageCount), spec.rng, old(spec.drawn)))
      ensures r.Ok? ==> rows == old(rows) + r.value
    {
      coverageCount := coverageCount + 1;
      var code :- FetchText(coverage, "CoverageCode");
      if code.None? || code.value == "" {
        return Err(EmptyCoverageCode);
      }
      CoverageBlockRows(TestId(suiteId, number, role), coverage, old(coverageCount), spec.rng, spec.drawn, code.value);
      CreateCoverage(code.value, coverageCount);
      var create := CreateRow(TestId(suiteId, number, role), coverageCount, code.value);
      var added :- ProcessCoverageTerms(spec, CoverageTerms(coverage));
      AppendAssoc(old(rows), [create], added);
      return Ok([create] + added);
    }

    /** The loop of process_coverage: a "with" row per coverage term. */
    method ProcessCoverageTerms(spec: ProductSpec, terms: seq<Element>) returns (r: Res<seq<Row>>)
      modifies this`rows, this`rowNumber, spec`drawn
      ensures Tracks(r, spec.drawn, TermRows(terms, 0, spec.rng, old(spec.drawn)))
      ensures r.Ok? ==> rows == old(rows) + r.value
    {
      ghost var start, whole := rows, TermRows(terms, 0, spec.rng, spec.drawn);
      var added: seq<Row> := [];
      PrependNothing(whole);
      var i := 0;
      while i < |terms|
        invariant 0 <= i <= |terms|
        invariant rows == start + added
        invariant whole == Prepend(added, TermRows(terms, i, spec.rng, spec.drawn))
      {
        ghost var d := spec.drawn;
        var row := ProcessCoverageTerm(spec, terms[i]);
        TermRowsTracked(terms, i, spec.rng, d, added, row, spec.drawn);
        if row.Err? {
          return Err(row.error);
        }
        AppendAssoc(start, added, [row.value]);
        added := added + [row.value];
        i := i + 1;
      }
      assert TermRows(terms, i, spec.rng, spec.drawn) == Ok(([], spec.drawn));
      assert added + [] == added;
      return Ok(added);
    }

    /** The loop of process_coverables over one coverable's selected coverages. */
    method ProcessCoverages(spec: ProductSpec, coverages: seq<Element>) returns (r: Res<seq<Row>>)
      requires role == CreateCoverages
      modifies this`rows, this`rowNumber, this`coverageCount, spec`drawn
      ensures Tracks(r, spec.drawn, CoverageRows(TestId(suiteId, number, role), coverages, 0, old(coverageCount), spec.rng, old(spec.drawn)))
      ensures r.Ok? ==> rows == old(rows) + r.value && coverageCount == old(coverageCount) + |coverages|
    {
      var testId := TestId(suiteId, number, role);
      ghost var start, count, whole := rows, coverageCount, CoverageRows(testId, coverages, 0, coverageCount, spec.rng, spec.drawn);
      var added: seq<Row> := [];
      PrependNothing(whole);
      var i := 0;
      while i < |coverages|
        invariant 0 <= i <= |coverages| && coverageCount == count + i
        invariant rows == start + added
        invariant whole == Prepend(added, CoverageRows(testId, coverages, i, coverageCount, spec.rng, spec.drawn))
      {
        ghost var c, d := coverageCount, spec.drawn;
        var block := ProcessCoverage(spec, coverages[i]);
        CoverageRowsTracked(testId, coverages, i, c, spec.rng, d, added, block, spec.drawn);
        if block.Err? {
          return Err(block.error);
        }
        assert coverageCount == c + 1;
        AppendAssoc(start, added, block.value);
        added := added + block.value;
        i := i + 1;
      }
      assert CoverageRows(testId, coverages, i, coverageCount, spec.rng, spec.drawn) == Ok(([], spec.drawn));
      assert added + [] == added;
      return Ok(added);
    }

    /** process_coverables for one coverable: its select row, then its selected coverages, of which there must be one. */
    method ProcessCoverable(spec: ProductSpec, coverable: Element) returns (r: Res<seq<Row>>)
      requires role == CreateCoverages
      modifies this`rows, this`rowNumber, this`coverageCount, spec`drawn
      ensures TracksCounted(r, coverageCount, spec.drawn, CoverableBlock(TestId(suiteId, number, role), coverable, old(coverageCount), spec.rng, old(spec.drawn)))
      ensures r.Ok? ==> rows == old(rows) + r.value
    {
      var found :- FetchText(coverable, "CoverableName");
      if found.None? || found.value == "" {
        return Err(EmptyCoverableName);
      }
      var name := found.value;
      SelectCoverable(name);
      var coverages :- spec.FetchCoverages(coverable);
      if |coverages| == 0 {
        return Err(NoCoverages(name));
      }
      var added :- ProcessCoverages(spec, coverages);
      AppendAssoc(old(rows), [SelectCoverableRow(name)], added);
      return Ok([SelectCoverableRow(name)] + added);
    }

    /** The loop of CreateCoveragesTestTable.create_test_table over the selected coverables. */
    method ProcessCoverables(spec: ProductSpec, coverables: seq<Element>) returns (r: Res<seq<Row>>)
      requires role == CreateCoverages
      modifies this`rows, this`rowNumber, this`coverageCount, spec`drawn
      ensures TracksCounted(r, coverageCount, spec.drawn,
        CoverableRows(TestId(suiteId, number, role), coverables, 0, old(coverageCount), spec.rng, old(spec.drawn)))
      ensures r.Ok? ==> rows == old(rows) + r.value
    {
      var testId := TestId(suiteId, number, role);
      ghost var start, whole := rows, CoverableRows(testId, coverables, 0, coverageCount, spec.rng, spec.drawn);
      var added: seq<Row> := [];
      PrependCountedNothing(whole);
      var i := 0;
      while i < |coverables|
        invariant 0 <= i <= |coverables|
        invariant rows == start + added
        invariant whole == PrependCounted(added, CoverableRows(testId, coverables, i, coverageCount, spec.rng, spec.drawn))
      {
        ghost var c, d := coverageCount, spec.drawn;
        var block := ProcessCoverable(spec, coverables[i]);
        CoverableRowsTracked(testId, coverables, i, c, spec.rng, d, added, block, coverageCount, spec.drawn);
        if block.Err? {
          return Err(block.error);
        }
        AppendAssoc(start, added, block.value);
        added := added + block.value;
        i := i + 1;
      }
      assert CoverableRows(testId, coverables, i, coverageCount, spec.rng, spec.drawn) == Ok(([], coverageCount, spec.drawn));
      assert added + [] == added;
      return Ok(added);
    }

    /** CreateCoveragesTestTable.create_test_table */
    method CreateCoveragesTable(spec: ProductSpec) returns (r: Res<seq<Row>>)
      requires role == CreateCoverages && Initial()
      modifies this`rows, this`rowNumber, this`coverageCount, spec`drawn
      ensures Tracks(r, spec.drawn, CreateCoveragesRows(fixture, suiteId, number, spec.root, spec.rng, old(spec.drawn)))
      ensures r.Ok? ==> rows == r.value
    {
      var testId := TestId(suiteId, number, role);
      AddFixture();
      SetProperty("TestId", testId, false);
      SelectSubmission();
      assert rows == CoveragesHead(fixture, testId, number);
      coverageCount := 0;
      var coverables :- spec.FetchCoverables();
      if |coverables| == 0 {
        return Err(NoCoverables);
      }
      CreateCoveragesRowsBody(fixture, suiteId, number, spec.root, spec.rng, old(spec.drawn), coverables, spec.drawn);
      var body :- ProcessCoverables(spec, coverables);
      Commit();
      return Ok(rows);
    }
  }

  lemma PrependCountedNothing(s: Res<(seq<Row>, int, nat)>)
    ensures PrependCounted([], s) == s
  {
    if s.Ok? {
      assert [] + s.value.0 == s.value.0;
    }
  }

  /**
   * What a table's constructor does with the fixture: fetch_fixture for the
   * role, and the fixture setter's refusal of None.
   */
  method LookUpFixture(spec: ProductSpec, role: Role) returns (r: Res<string>)
    requires spec.Valid()
    modifies spec`fixtures
    ensures spec.Valid()
    ensures r == FixtureLookup(old(spec.fixtures), spec.root, role)
    ensures r.Ok? ==> spec.fixtures == FixturesAccess(old(spec.fixtures), spec.root).value
  {
    var found :- spec.FetchFixture(RoleName(role));
    if found.None? {
      return Err(FixtureMissing(RoleName(role)));
    }
    return Ok(found.value);
  }

  /**
   * The constructors of the five tables, in role order: each looks up the
   * fixture for its role, and the first role without one stops them all.
   */
  method LookUpFixtures(spec: ProductSpec) returns (r: Res<seq<string>>)
    requires spec.Valid()
    modifies spec`fixtures
    ensures spec.Valid()
    ensures r == RoleFixtures(old(spec.fixtures), spec.root)
    ensures r.Ok? ==> |r.value| == |Roles|
  {
    ghost var fs := spec.fixtures;
    RoleFixturesInTurn(fs, spec.root);
    var cs :- LookUpFixture(spec, CreateSubmission);
    FixtureLookupLoaded(fs, spec.root, AnswerQuestions);
    var aq :- LookUpFixture(spec, AnswerQuestions);
    FixtureLookupLoaded(fs, spec.root, UpdateDwelling);
    var ud :- LookUpFixture(spec, UpdateDwelling);
    FixtureLookupLoaded(fs, spec.root, CreateCoverages);
    var cc :- LookUpFixture(spec, CreateCoverages);
    FixtureLookupLoaded(fs, spec.root, QuoteIssue);
    var qi :- LookUpFixture(spec, QuoteIssue);
    return Ok([cs, aq, ud, cc, qi]);
  }

  /**
   * format_test_table for each table in turn: a table per role, filled in
   * role order, each drawing where the one before stopped.
   */
  method FillTables(spec: ProductSpec, fixtures: seq<string>, suiteId: string, number: string, today: string) returns (r: Res<seq<seq<Row>>>)
    requires |fixtures| == |Roles|
    modifies spec`drawn
    ensures Tracks(r, spec.drawn, TablesFrom(fixtures, 0, suiteId, number, spec.root, today, spec.rng, old(spec.drawn)))
  {
    ghost var whole := TablesFrom(fixtures, 0, suiteId, number, spec.root, today, spec.rng, spec.drawn);
    var tables: seq<seq<Row>> := [];
    PrependNothing(whole);
    var i := 0;
    while i < |Roles|
      invariant 0 <= i <= |Roles|
      invariant whole == Prepend(tables, TablesFrom(fixtures, i, suiteId, number, spec.root, today, spec.rng, spec.drawn))
    {
      ghost var d := spec.drawn;
      var table := new TestTable(Roles[i], fixtures[i], suiteId, number);
      var rows := table.CreateTestTable(spec, today);
      TablesFromTracked(fixtures, i, suiteId, number, spec.root, today, spec.rng, d, tables, rows, spec.drawn);
      if rows.Err? {
        return Err(rows.error);
      }
      tables := tables + [rows.value];
      i := i + 1;
    }
    assert TablesFrom(fixtures, i, suiteId, number, spec.root, today, spec.rng, spec.drawn) == Ok(([], spec.drawn));
    assert tables + [] == tables;
    return Ok(tables);
  }

  /**
   * create_test_tables: the five tables are constructed, each looking up the
   * fixture for its role, then each is filled in turn. QuoteIssue is always
   * among them.
   */
  method CreateTestTables(spec: ProductSpec, number: string, today: string) returns (r: Res<seq<seq<Row>>>)
    requires spec.Valid()
    modifies spec`fixtures, spec`texts, spec`drawn
    ensures spec.Valid()
    ensures Tracks(r, spec.drawn, TestTables(old(spec.fixtures), number, spec.root, today, spec.rng, old(spec.drawn)))
  {
    ghost var fs, pos := spec.fixtures, spec.drawn;
    var fixtures := LookUpFixtures(spec);
    if fixtures.Err? {
      TestTablesFixturesErr(fs, number, spec.root, today, spec.rng, pos);
      return Err(fixtures.error);
    }
    var suiteId := spec.TextString("SuiteId");
    if suiteId.Err? {
      TestTablesSuiteErr(fs, number, spec.root, today, spec.rng, pos);
      return Err(suiteId.error);
    }
    TestTablesOk(fs, number, spec.root, today, spec.rng, pos, fixtures.value, suiteId.value);
    r := FillTables(spec, fixtures.value, suiteId.value, number, today);
  }
}
