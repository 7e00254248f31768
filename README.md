# SuiteDreams test case synthesis, modelled in Dafny

SuiteDreams reads an XML product specification of an insurance product and
writes randomised test cases for a table-driven test runner. This project
models the three parts that decide what a test case contains:

- **The product specification reader** (`productspec.py`). It covers the XML
  queries of `XmlHandler`, the weighted selection engine of `SchemaHandler`
  (`fetch_weight`, `select_element`, `process_values`,
  `fetch_selected_elements`, `process_property`) and the memoised accessors
  and domain fetchers of `ProductSpec`. These are in modules `Xml`,
  `Selection` and `ProductSpecs`, with `Numbers` standing in for Python's
  `str()` and `int()`.
- **The fixture tables** (`testcasetable.py`). `TableRows` gives, as pure
  functions, the rows each of the five role builders must produce from the
  specification and the random draws. `TestCaseTable` holds the `TestTable`
  class: it mutates its rows, row number, headings and coverage count the way
  the Python classes do. Every builder method is proved to produce exactly
  the rows, draws and errors that `TableRows` describes.
- **The file builder** (`filebuilder.py`). `FileBuilding` covers the
  zero-padded test case number, the identifiers, the file name and the two
  `set` rows at the top of a test case.

How the model represents the source:

- **XML tree.** The parsed specification is an immutable `Element` tree. An
  element's text is `None` when it has none, as in ElementTree, and
  `fetch_text` hands that `None` on. Where the code joins the text to other
  text or gives it to `int()`, a missing text is the error `TextMissing`
  (`FetchString`), and a table cell of `None` is "".
- **Random draws.** Python's `Random` becomes a stream `rng: nat -> Draw`,
  where a draw is in [1, 100]. The `ProductSpec` object keeps a cursor
  `drawn`. Every specification function takes the cursor and returns the
  cursor after its last draw, so the number and order of draws are part of
  every contract (`Tracks`).
- **Errors.** Every `SuiteDreamsException`, and every `assert` that the
  content of a specification can trip, is a `SuiteError` value in a `Res`
  result. Asserts that only check the program's own arguments become
  `requires` clauses.

## Model

| member | source | states |
|---|---|---|
| Numbers.IntToStringDigits | filebuilder.py:84 | str(n) of a natural is a run of decimal digits that denotes n, with no leading zero when n > 0 |
| Numbers.ParseIntToString | productspec.py:407-409 | int(str(i)) == i for every integer, so a printed weight, count or seed reads back as itself |
| Numbers.IntToStringInjective | testcasetable.py:472 | distinct integers print as distinct strings |
| Numbers.PositiveHasNoLeadingZero | filebuilder.py:84 | str(n) of a positive n starts with a non-zero digit |
| Xml.WithTag | productspec.py:97-111 | findall returns at most the parent's children, each with the requested tag |
| Xml.WithTagIsSubsequence | productspec.py:97-111 | findall keeps the tagged children in document order |
| Xml.WithTagMembers | productspec.py:97-111 | an element is found by findall exactly when it is a child with the tag |
| Xml.Find | productspec.py:58-78 | fetch_element succeeds exactly when a child has the tag, returns an element with that tag, and otherwise fails naming the tag and the parent's tag |
| Xml.FindSucceedsIffPresent | productspec.py:114-123 | has_element and fetch_element both succeed exactly when some child carries the tag, and fetch_element returns a child |
| Xml.FindIsFirst | productspec.py:58-78 | fetch_element returns the first child in document order with the tag |
| Xml.FetchText | productspec.py:81-94 | fetch_text succeeds exactly when fetch_element does, and returns that element's text, None when it has none |
| Xml.FetchString | productspec.py:81-94 | where the text is used as a string, a found element with text gives that text, one without text gives TextMissing naming the tag, and a missing element gives the not-found error |
| Selection.ParsesHundred | productspec.py:407-409 | the default weight text "100" reads as 100 |
| Selection.FetchWeight | productspec.py:398-420 | a weight that fetch_weight returns lies in [0, 100] |
| Selection.FetchWeightDefault | productspec.py:407 | an element without a weight attribute has weight 100 |
| Selection.ParseWeight | productspec.py:408-420 | a weight is accepted exactly when int() reads it and it lies in [0, 100]; otherwise the error is "illegal value" for unreadable text and "out of range" for a readable one |
| Selection.FetchWeightOfPrinted | productspec.py:407-420 | an attribute holding str(w) gives weight w when 0 <= w <= 100, and the out-of-range error otherwise |
| Selection.SelectElement | productspec.py:385-395 | select_element is true exactly when the selector is at most the weight, and fails exactly when fetch_weight fails |
| Selection.SelectionBoundaries | productspec.py:385-395 | with any draw in [1, 100], weight 100 always includes and weight 0 never does |
| Selection.ChosenFrom | productspec.py:434-442 | process_values returns the text of one of the value elements |
| Selection.PrefixWeightMonotone | productspec.py:435-438 | the running sum of valid weights never decreases |
| Selection.ChosenFromAt | productspec.py:436-440 | from any point of the scan, the value returned is the first one whose running sum reaches the selector |
| Selection.ChosenIsFirstCovering | productspec.py:434-440 | process_values returns the first value in document order whose cumulative weight is at least the selector |
| Selection.ChosenFromBeyond | productspec.py:441-442 | a selector above the total weight makes process_values fail with "no values were selected" |
| Selection.ChosenFromWithin | productspec.py:436-440 | a selector within the remaining weight always selects a value |
| Selection.ChosenSucceedsIffCovered | productspec.py:434-442 | for a selector of at least 1, process_values succeeds exactly when the selector is at most the total weight, including when there are no values |
| Selection.FullWeightsNeverExhaust | productspec.py:434-442 | values whose weights add up to at least 100 always yield a value for any draw |
| Selection.SelectedFrom | productspec.py:444-459 | fetch_selected_elements draws exactly once per tagged child and returns at most that many elements |
| Selection.SelectedIsSubsequence | productspec.py:453-459 | the selected elements are an order-preserving subsequence of the tagged children |
| Selection.SelectedFromFilter | productspec.py:453-459 | tagged child i is selected exactly when the i-th draw after the cursor is at most its weight, and the result is those children in document order |
| Selection.SelectedOkIffWeightsValid | productspec.py:453-459 | selection succeeds exactly when every tagged child has a valid weight |
| Selection.SelectedAllFullWeight | productspec.py:455-458 | children of weight 100 are all selected |
| Selection.SelectedAllZeroWeight | productspec.py:455-458 | children of weight 0 are all left out, still using one draw each |
| Selection.PropertyChoice | productspec.py:364-382 | process_property uses two draws when the property is included and one when it is not |
| Selection.PropertyChoiceDraws | productspec.py:374-382 | an excluded property gives (None, None) after one draw; an included one gives its name and the value chosen by the second draw; it is included exactly when the first draw is at most its weight |
| Selection.ChoicesFrom | productspec.py:343-347 | processing the properties gives one choice per property and uses between one and two draws for each |
| Selection.ChoicesFromDraws | productspec.py:343-347 | after the properties are processed, the cursor has moved on by one draw per excluded property and two per included one |
| Selection.ChoicesFromAt | productspec.py:343-347 | the choice for property J is the one process_property makes for that property, starting at the draw right after those of the properties before it |
| Selection.ChoiceAtMeaning | productspec.py:364-382 | such a choice includes its property exactly when its first draw is at most the weight; an excluded property has no name and no value; an included one has its PropertyName text and the Value that the next draw chooses |
| Selection.NamedValueFrom | productspec.py:317-332 | fetch_property_name_value uses at most two draws per property scanned and finds a value only for a property with the target name |
| Selection.NamedValueFromScan | productspec.py:317-332 | fetch_property_name_value processes the properties in order up to the first one included under the target name and returns that one's value; it returns None only after processing every property, none of them included under that name; the cursor ends after the draws of the processed properties |
| ProductSpecs.ParseFixture | productspec.py:663-673 | a Fixture is built exactly when both Role and FixtureClass are present, from their texts |
| ProductSpecs.ScanFixtures | productspec.py:241-243 | the loop appends one fixture per Fixture element, stopping early only on a failure |
| ProductSpecs.ScanFixturesParsed | productspec.py:241-243 | each appended fixture is the one built from the element at that position |
| ProductSpecs.ScanFixturesStops | productspec.py:241-243 | a failing element stops the loop with that element's error, the fixtures before it already appended |
| ProductSpecs.FixtureElements | productspec.py:239-240 | the fixture elements are Fixture children of the Fixtures element, whose absence is an error |
| ProductSpecs.FixturesOf | productspec.py:236-245 | the fixtures list, when it loads, is non-empty and has one fixture per Fixture element; an empty Fixtures element is an error |
| ProductSpecs.FixturesFromElements | productspec.py:236-245 | the fixtures property fails with the first element's failure, fails when none is declared, and otherwise returns every fixture in order |
| ProductSpecs.FixtureForMeaning | productspec.py:310-315 | fetch_fixture returns None exactly when no fixture has the role or the first fixture with the role has no FixtureClass text, and otherwise the class of the first fixture with the role |
| ProductSpecs.FixtureForFirst | productspec.py:310-315 | the first fixture with the role decides the result, whatever follows it |
| ProductSpecs.FindFixture | productspec.py:310-315 | the search loop returns what the first-match lookup defines |
| ProductSpecs.CountOf | productspec.py:174-188 | count, when it succeeds, is non-negative and is int() of the Count text |
| ProductSpecs.CountOfPrinted | productspec.py:178-188 | a Count text str(n) gives n when n >= 0 and the negative-count error otherwise |
| ProductSpecs.SeedOf | productspec.py:254-263 | seed is int() of the Seed text, and unreadable text is the seed error naming that text |
| ProductSpecs.ProductNameOf | productspec.py:493-498 | product_name succeeds exactly when Product and its ProductCode are present |
| ProductSpecs.ShouldQuote | productspec.py:525-532 | should_quote is defined exactly when the Policy element is present |
| ProductSpecs.ShouldBind | productspec.py:542-548 | should_bind is defined exactly when the Policy element is present |
| ProductSpecs.QuoteMarkers | productspec.py:525-548 | should_quote is true exactly when Policy has a Quote or Bind child; should_bind exactly when it has a Bind child |
| ProductSpecs.ShouldBindImpliesQuote | productspec.py:525-548 | should_bind implies should_quote, and both fail together |
| ProductSpecs.QuoteElement | productspec.py:535-539 | quote_element returns a Quote element only when should_quote holds |
| ProductSpecs.QuestionSets | productspec.py:554-561 | fetch_question_sets succeeds exactly when Product is present and returns QuestionSet elements |
| ProductSpecs.Questions | productspec.py:573-581 | fetch_questions returns Question elements |
| ProductSpecs.CoverageTerms | productspec.py:623-633 | fetch_coverage_terms returns CoverageTerm elements |
| ProductSpecs.DwellingFrom | testcasetable.py:659-668 | the dwelling scan returns a coverable named HOPDwelling, or None exactly when no coverable has that name |
| ProductSpecs.DwellingFromFirst | testcasetable.py:659-668 | the coverable found is the first one named HOPDwelling: every coverable before it has a readable name other than HOPDwelling |
| ProductSpecs.Dwelling | testcasetable.py:655-668 | fetch_dwelling returns a Coverable whose CoverableName is HOPDwelling; where Python returns None and the `parent is not None` assert of fetch_all_elements then fails, the model raises DwellingMissing at once |
| ProductSpecs.QuestionAnswer | productspec.py:583-592 | fetch_question_code_and_answer uses one draw and returns the QuestionCode text and the Answer that draw selects |
| ProductSpecs.TermValue | productspec.py:635-646 | fetch_coverage_term_value uses one draw and returns the Term that draw selects |
| ProductSpecs.PropertyColumnsAt | productspec.py:334-382 | fetch_property_headings and fetch_property_values give one column per Property child; column i is included exactly when the draw after those of the earlier children is at most the child's weight; an excluded column is None in both; an included one has the PropertyName text as heading and, as value, the Value that the next draw chooses; the cursor ends one draw past each excluded child and two past each included one |
| ProductSpecs.AccountNumberOf | productspec.py:501-509 | account_number fails without a Policy; fails with the search's own error; fails with the missing-account-number error when the search finds no value; and otherwise returns the found value, with the draws of the search |
| ProductSpecs.SubmissionDateOf | productspec.py:512-522 | submission_date succeeds exactly when Policy is present and the search succeeds; it returns the found SubmissionDate value, or today's date when the search finds none, with the draws of the search |
| ProductSpecs.SubmissionDateDefault | productspec.py:519-521 | a Policy without properties gives today's date and uses no draw |
| ProductSpecs.ProductSpec.constructor | productspec.py:141-160 | a new specification has drawn nothing and memoised nothing |
| ProductSpecs.ProductSpec.Load | productspec.py:274-289 | parse accepts the tree exactly when its root is TestSuite, and otherwise fails naming the root's tag |
| ProductSpecs.ProductSpec.RandomSelector | productspec.py:266-268 | random_selector returns the next draw of the stream and advances the cursor by one |
| ProductSpecs.ProductSpec.Count | productspec.py:174-188 | the first access returns what the Count text specifies; later accesses return the memoised value; the value is memoised before its sign is checked |
| ProductSpecs.ProductSpec.Seed | productspec.py:254-263 | seed returns what the Seed text specifies and memoises it |
| ProductSpecs.ProductSpec.Text | productspec.py:191-233 | suite_name, suite_id, project, author and description return the text of their element, memoised on first success |
| ProductSpecs.ProductSpec.TextString | productspec.py:191-233 | where an accessor's text is joined to other text, the result is that text, TextMissing when the element has none, or the not-found error when it is absent |
| ProductSpecs.ProductSpec.ProductName | productspec.py:493-498 | product_name returns what the Product element specifies |
| ProductSpecs.ProductSpec.Fixtures | productspec.py:236-245 | the fixtures property loads the list once and returns it unchanged afterwards |
| ProductSpecs.ProductSpec.AppendFixtures | productspec.py:241-243 | the loop leaves exactly the fixtures scanned before any failure in the list |
| ProductSpecs.ProductSpec.FetchFixture | productspec.py:303-315 | fetch_fixture returns the first-match lookup over the loaded fixtures, or the loading error |
| ProductSpecs.ProductSpec.ProcessValues | productspec.py:422-442 | the accumulation loop returns what the cumulative-weight choice defines |
| ProductSpecs.ProductSpec.FetchSelectedElements | productspec.py:444-459 | the selection loop returns the selected elements and uses the draws that SelectedFrom defines |
| ProductSpecs.ProductSpec.ProcessProperty | productspec.py:364-382 | process_property returns the choice and uses the draws that PropertyChoice defines |
| ProductSpecs.ProductSpec.FetchPropertyNameValue | productspec.py:317-332 | the search loop returns the value and the draws that NamedValueFrom defines: by NamedValueFromScan, the value of the first property included under the name, or None when there is none |
| ProductSpecs.ProductSpec.ProcessProperties | productspec.py:343-347 | the loop processes every Property child in order |
| ProductSpecs.ProductSpec.FetchPropertyHeadings | productspec.py:334-348 | the headings loop returns the headings and draws whose columns PropertyColumnsAt describes |
| ProductSpecs.ProductSpec.FetchPropertyValues | productspec.py:350-362 | the values loop returns the values and draws whose columns PropertyColumnsAt describes |
| ProductSpecs.ProductSpec.AccountNumber | productspec.py:501-509 | account_number returns the result AccountNumberOf defines, including the missing-number error, and uses its draws |
| ProductSpecs.ProductSpec.SubmissionDate | productspec.py:512-522 | submission_date returns the result SubmissionDateOf defines: the found value or today's date, with its draws |
| ProductSpecs.ProductSpec.FetchQuestionCodeAndAnswer | productspec.py:583-592 | returns the question code and the answer that QuestionAnswer defines |
| ProductSpecs.ProductSpec.FetchCoverables | productspec.py:594-601 | fetch_coverables fails without a Product element and otherwise selects among its Coverable children |
| ProductSpecs.ProductSpec.FetchCoverages | productspec.py:603-611 | fetch_coverages selects among the coverable's Coverage children |
| ProductSpecs.ProductSpec.FetchCoverageTermValue | productspec.py:635-646 | returns the term value that TermValue defines |
| TableRows.RolesInOrder | testcasetable.py:45-51 | create_test_tables builds five distinct tables, CreateSubmission first and QuoteIssue last |
| TableRows.RolesAreWellFormed | testcasetable.py:226-257 | every role name is non-empty and every abbreviation is two characters, as the setters demand; names and abbreviations identify their role |
| TableRows.TestIdsDistinguishRoles | testcasetable.py:185-200 | the test ids of one test case share everything but the two-letter abbreviation, and are equal exactly for the same role |
| TableRows.RowIdsDiffer | testcasetable.py:472 | the ids test_id + "-" + str(n) of distinct row numbers differ |
| TableRows.RowOf | testcasetable.py:283-310 | add_row makes one cell per value, with the values as texts |
| TableRows.RowOfUnique | testcasetable.py:299-308 | a cell is marked unique exactly where is_unique is given and true |
| TableRows.InitialUnique | testcasetable.py:415-428 | a column table's flags match its headings one for one and mark exactly the Submission ID column |
| TableRows.Cells | testcasetable.py:680-681 | a row built from optional values has one cell per value, "" where the value is None |
| TableRows.CreateSubmissionRows | testcasetable.py:457-478 | the CreateSubmission table is the fixture row, the heading row and one five-cell data row whose id is row 1 and which carries the submission id and the account number |
| TableRows.CreateSubmissionRowsOk | testcasetable.py:457-478 | given the account number and the submission date, the CreateSubmission table is exactly those three rows, ending in "true" |
| TableRows.QuestionValuesShape | testcasetable.py:568-585 | a question row has six cells: the row id, the submission id, the set code, the question code, the answer chosen by one draw, and "true"; it fails exactly when the code or the answer does |
| TableRows.QuestionRowsLength | testcasetable.py:563-565 | the questions of a set give one row and take one draw each |
| TableRows.QuestionRowAt | testcasetable.py:553-585 | the rows of a set are its questions' answered rows in order: question J - b gets row number n0 + J and its answer from draw pos0 + J |
| TableRows.QuestionSetBlockLength | testcasetable.py:553-566 | process_question_set adds one row per question of the set and takes one draw per question |
| TableRows.QuestionSetRowsLength | testcasetable.py:542-551 | create_rows adds one row per question across all question sets and takes one draw per question |
| TableRows.AllQuestionsAt | testcasetable.py:542-566 | the questions of all sets in document order: question J is question J - b of set k, where b questions come before set k |
| TableRows.QuestionSetRowAt | testcasetable.py:542-585 | the j-th question in document order gets row number n + j, its set's code, and its answer from draw pos + j |
| TableRows.QuestionSetRowsAsked | testcasetable.py:542-585 | the rows of all question sets are the six-cell answered rows of all their questions, one each, in document order |
| TableRows.AnswerQuestionsRowsNumbered | testcasetable.py:532-585 | the AnswerQuestions table is the fixture row, the heading row, then for the j-th question in document order a six-cell row numbered 1 + j whose answer draw pos + j chooses |
| TableRows.DwellingHeadings | testcasetable.py:641-653 | the dwelling headings are the two fixed headings, one per property, and "Valid()" last |
| TableRows.DwellingUnique | testcasetable.py:641-653 | the flags keep step with the headings and mark only Submission ID |
| TableRows.DwellingNames | testcasetable.py:646-647 | one heading per Property of the dwelling |
| TableRows.DwellingValues | testcasetable.py:674-675 | one value per Property of the dwelling |
| TableRows.DwellingNamesAt | testcasetable.py:641-653 | heading i of the dwelling's table is that of its i-th Property: its PropertyName text when the draw after those of the earlier properties is at most its weight, None otherwise |
| TableRows.DwellingValuesAt | testcasetable.py:670-684 | value i of the dwelling's data row, from its own round of draws, is None when the i-th Property is left out and otherwise the Value that the draw after its inclusion draw chooses |
| TableRows.UpdateDwellingRows | testcasetable.py:630-639 | the UpdateDwelling table has three rows, the fixture row first |
| TableRows.UpdateDwellingRowsOk | testcasetable.py:630-684 | given the drawn headings and values, the table is the fixture row, the heading row and the data row, in that order |
| TableRows.DwellingRowsAligned | testcasetable.py:641-684 | the heading row and the data row have the same number of cells, ending in "Valid()" and "true" |
| TableRows.CreatesFromIds | testcasetable.py:847-864 | the create rows are numbered from a start exactly when their coverage ids are test_id + "-" + k for consecutive k |
| TableRows.CreatedIdsDistinct | testcasetable.py:980-992 | the coverage ids of one CreateCoverages table are distinct |
| TableRows.TermRow | testcasetable.py:1001-1015 | a term gives one "with" row with its code and the non-empty value chosen by one draw |
| TableRows.TermRowsWith | testcasetable.py:996-998 | the terms of a coverage give one four-cell "with" row each, one draw each |
| TableRows.CoverageBlockCreates | testcasetable.py:980-999 | a coverage gives one "create" row, numbered one past the count so far, followed by its term rows; an empty coverage code is an error |
| TableRows.CoverageRowsCreate | testcasetable.py:976-977 | a coverable's coverages give one create row each, numbered consecutively |
| TableRows.CoverableBlockCreates | testcasetable.py:959-978 | a coverable starts with a "select coverable" row and adds at least one consecutively numbered create row; an empty name is an error |
| TableRows.CoverableRowsCreate | testcasetable.py:954-955 | the coverage numbering runs on across all coverables of the table |
| TableRows.CoveragesFramed | testcasetable.py:931-957 | the fixed head and the final commit add no create row, so numbering starts at 1 |
| TableRows.CreateCoveragesRowsNumbered | testcasetable.py:931-957 | the CreateCoverages table starts with the fixture, "set TestId" and "select submission" rows, ends with "commit", and numbers at least one coverage from 1 |
| TableRows.RowsForFixture | testcasetable.py:312-318 | every table starts with its fixture row |
| TableRows.FixturesFor | testcasetable.py:45-51 | looking up the fixtures of the roles gives one class per role |
| TableRows.FixturesForMeaning | testcasetable.py:45-51 | the lookup succeeds with the first-match class of each role, or fails naming a role without a fixture |
| TableRows.RoleFixturesInTurn | testcasetable.py:45-51 | the five constructors look up their fixtures in the order of the tables, and the first missing one decides the error |
| TableRows.TablesFromLast | testcasetable.py:53-55 | formatting the tables gives five tables, the last being the QuoteIssue table |
| TableRows.TablesFromFixtures | testcasetable.py:53-55 | each built table starts with its own role's fixture row |
| TableRows.QuoteIssueAlwaysBuilt | testcasetable.py:45-51 | a successful run always builds the QuoteIssue table last, with its fixture, whatever the Quote and Bind markers say |
| TestCaseTable.TestTable.constructor | testcasetable.py:96-121 | a new table has no rows, row number -1, the role's headings and flags, and coverage count 0 |
| TestCaseTable.TestTable.AddRow | testcasetable.py:283-310 | add_row appends exactly one row and keeps the earlier ones; a column table's row number goes up by one |
| TestCaseTable.TestTable.AddFixture | testcasetable.py:312-318 | add_fixture appends the one-cell fixture row |
| TestCaseTable.TestTable.SetProperty | testcasetable.py:782-808 | appends the row "set name value", its first cell unique as asked |
| TestCaseTable.TestTable.SelectSubmission | testcasetable.py:810-827 | appends the row "select submission id", its first cell unique |
| TestCaseTable.TestTable.SelectCoverable | testcasetable.py:829-845 | appends the row "select coverable name" |
| TestCaseTable.TestTable.CreateCoverage | testcasetable.py:847-864 | appends the row "create coverage test_id-count code" |
| TestCaseTable.TestTable.AddWith | testcasetable.py:866-881 | appends the row "with code value" |
| TestCaseTable.TestTable.Commit | testcasetable.py:883-894 | appends the row "commit" |
| TestCaseTable.TestTable.CreateTestTable | testcasetable.py:58-70 | the table's builder produces the rows, draws and errors RowsFor defines for its role |
| TestCaseTable.TestTable.CreateSubmissionTable | testcasetable.py:457-465 | builds the rows CreateSubmissionRows defines |
| TestCaseTable.TestTable.QuoteIssueTable | testcasetable.py:730-751 | builds the fixed QuoteIssue rows without a draw |
| TestCaseTable.TestTable.AnswerQuestionsTable | testcasetable.py:532-540 | builds the rows AnswerQuestionsRows defines |
| TestCaseTable.TestTable.ProcessQuestionSets | testcasetable.py:542-551 | the loop over question sets appends the rows QuestionSetRows defines and keeps the row number in step with the rows |
| TestCaseTable.TestTable.ProcessQuestionSet | testcasetable.py:553-566 | appends one set's rows as QuestionSetBlock defines |
| TestCaseTable.TestTable.ProcessQuestions | testcasetable.py:563-565 | the loop over questions appends the rows QuestionRows defines |
| TestCaseTable.TestTable.ProcessQuestion | testcasetable.py:564-565 | appends one question row and advances the row number by one |
| TestCaseTable.TestTable.CreateQuestionValues | testcasetable.py:568-585 | returns the six values QuestionValues defines, numbered with the current row number |
| TestCaseTable.TestTable.UpdateHeadings | testcasetable.py:641-653 | extends headings and flags in lockstep with the drawn property names, then "Valid()" |
| TestCaseTable.TestTable.FetchDwelling | testcasetable.py:655-668 | the search loop returns what Dwelling defines: the first Coverable named HOPDwelling (DwellingFromFirst), the error of an unreadable name before it, or DwellingMissing where Python returns None |
| TestCaseTable.TestTable.DwellingRow | testcasetable.py:670-684 | appends the data row of the drawn property values, ending in "true" |
| TestCaseTable.TestTable.UpdateDwellingTable | testcasetable.py:630-639 | builds the rows UpdateDwellingRows defines |
| TestCaseTable.TestTable.ProcessCoverageTerm | testcasetable.py:1001-1015 | appends the "with" row TermRow defines |
| TestCaseTable.TestTable.ProcessCoverageTerms | testcasetable.py:996-998 | the loop over terms appends the rows TermRows defines |
| TestCaseTable.TestTable.ProcessCoverage | testcasetable.py:980-999 | raises the coverage count by one and appends the rows CoverageBlock defines |
| TestCaseTable.TestTable.ProcessCoverages | testcasetable.py:976-977 | the loop over coverages appends the rows CoverageRows defines and counts every coverage |
| TestCaseTable.TestTable.ProcessCoverable | testcasetable.py:959-978 | appends the rows and the count CoverableBlock defines |
| TestCaseTable.TestTable.ProcessCoverables | testcasetable.py:954-955 | the loop over coverables appends the rows and the count CoverableRows defines |
| TestCaseTable.TestTable.CreateCoveragesTable | testcasetable.py:931-957 | builds the rows CreateCoveragesRows defines, failing when no coverable is selected |
| TestCaseTable.LookUpFixture | testcasetable.py:413-414 | a constructor's fixture lookup loads the fixtures once and fails when its role has none |
| TestCaseTable.LookUpFixtures | testcasetable.py:45-51 | the five lookups give one fixture per role, as RoleFixtures defines |
| TestCaseTable.FillTables | testcasetable.py:53-55 | the loop builds the five tables in order, as TablesFrom defines |
| TestCaseTable.CreateTestTables | testcasetable.py:36-55 | create_test_tables gives the tables, draws and errors TestTables defines |
| FileBuilding.PaddedShape | filebuilder.py:80-87 | padding only puts '0' characters in front, up to length four |
| FileBuilding.IntToStringLength | filebuilder.py:84-85 | str(n) has at most k characters exactly when n < 10^k |
| FileBuilding.LeadingZeros | filebuilder.py:85-86 | zeros put in front of digits do not change the number they denote |
| FileBuilding.TestCaseNumberDigits | filebuilder.py:80-87 | the test case number of num > 0 is all digits and denotes num; it is exactly four digits when num <= 9999 and is str(num) unchanged from 1000 on |
| FileBuilding.TestCaseNumberParses | filebuilder.py:80-87 | int() of the test case number gives num back |
| FileBuilding.TestCaseNumberInjective | filebuilder.py:80-87 | distinct positive nums give distinct test case numbers |
| FileBuilding.FileIdsAndTableIds | filebuilder.py:125-139 | test_id is "TEST-" + public_id, and each table's ids extend the file's with "-" and the role abbreviation |
| FileBuilding.SubmissionIdsDistinct | testcasetable.py:202-209 | test cases with distinct nums have distinct submission ids |
| FileBuilding.FileNamesDistinct | filebuilder.py:97-103 | in one suite, distinct nums give distinct file names |
| FileBuilding.PolicyRowsShape | filebuilder.py:166-187 | process_policy hands over two five-cell set rows, Test Id and then PublicID, only the second unique, and the Test Id value is "TEST-" before the PublicID value |
| FileBuilding.FileBuilder.constructor | filebuilder.py:38-54 | a file builder needs a non-empty library and a positive test case number |
| FileBuilding.FileBuilder.TestCaseNumber | filebuilder.py:80-87 | the while loop puts '0' in front of str(num) until it is four characters long |
| FileBuilding.FileBuilder.TestSuiteDir | filebuilder.py:71-77 | test_suite_dir is the library, "/" and the suite name, or the missing suite name's error |
| FileBuilding.FileBuilder.TestCaseFilename | filebuilder.py:97-103 | test_case_filename is the suite directory, "/", the number, "_", the suite id and ".html" |
| FileBuilding.FileBuilder.SuiteId | filebuilder.py:89-95 | suite_id is the SuiteId text, TextMissing when the element has none, or the not-found error when it is absent |
| FileBuilding.FileBuilder.TestId | filebuilder.py:125-131 | test_id is "TEST-", the suite id, "-" and the test case number |
| FileBuilding.FileBuilder.PublicId | filebuilder.py:133-139 | public_id is the suite id, "-" and the test case number |
| FileBuilding.FileBuilder.ProcessPolicy | filebuilder.py:166-172 | process_policy produces the two rows PolicyRows defines, or the missing suite id's error |

Behaviour of the code that the contracts keep, though a reader might expect
otherwise:

- **QuoteIssue is unconditional.** `create_test_tables`
  (testcasetable.py:45-51) always builds the QuoteIssue table. It never
  consults `should_quote` or `should_bind` (productspec.py:525-548), and it
  adds no Bind step (`QuoteIssueAlwaysBuilt`).
- **CreateCoverages rows.** `process_coverables` (testcasetable.py:959-978)
  always writes `select coverable` and no `set` row for the coverable's
  properties. The action table's `set` row (testcasetable.py:782-808) has
  four cells, `set name value ""`.
- **Empty collections.** A question set without questions
  (testcasetable.py:563-565) and a coverage without terms
  (testcasetable.py:996-998) are not errors; they add no rows. An empty list
  of value alternatives fails with "no values were selected"
  (productspec.py:441-442).
- **UpdateDwelling draws twice.** Its headings (testcasetable.py:646-647) and
  its data row (testcasetable.py:674-675) come from two separate rounds of
  draws over the same properties. The two rows therefore have the same width,
  but a column may hold a value under an empty heading, or the reverse.
- **Count memo.** `count` (productspec.py:174-188) memoises a negative count
  before rejecting it, so a second access returns the negative value without
  an error (`ProductSpec.Count`).
- **Seed unused.** The seed is parsed (productspec.py:254-263), but
  `random_selector` (productspec.py:266-268) draws from an unseeded
  `Random()`. No contract here claims reproducibility from the seed.
- **Coverage numbers.** `process_coverage` (testcasetable.py:980-999)
  numbers coverages from 1 across the whole table, not per coverable.

## Left out

- Reading the specification file, `parse` and `file_exists`. They are file
  and XML-library calls. The model starts from the parsed tree; `Load` keeps
  only the check that the root is TestSuite.
- Python's `Random` and `randint`. The draws are an input stream of values
  in [1, 100].
- The HTML output: `create_heading`, `format_test_table`, `create_table`, the
  `body` list and the ElementTree elements. These are rendering. A table is
  its sequence of rows, each row its cells plus one uniqueness flag per
  cell. `Title` keeps the heading texts.
- The current date. `dates.py` reads the clock, so the default submission
  date is the parameter `today`.
- `testcase.py`, `suitebuilder.py` and `main.py` are not part of this model.
  As a result:
  - `process_policy` returns its two rows instead of handing them to
    `TestCase.add_row` and `add_row_attrib`;
  - the `test_case` getter and setter are left out;
  - `produce_test_case` and `initialize` are left out, because they write
    the file and copy the title, project, author and description into the
    absent TestCase.
- fetch_dwelling without a HOPDwelling coverable: Python returns None, and
  the `parent is not None` assert of `fetch_all_elements`
  (productspec.py:106) fails when `fetch_property_headings` or
  `fetch_property_values` is then called with it. The model raises
  `DwellingMissing` in `Dwelling` instead. No draw and no row come in
  between, so the run stops at the same point with the same rows and draws.
- The message texts of the exceptions. Each error variant carries the names
  the message would print.
- Asserts that check the program's own arguments for None. The types rule
  these out; the remaining ones are `requires` clauses.
- Numbers.ParseInt: does not accept the underscores between digits, nor the non-ASCII digits and whitespace, that Python's `int()` also accepts; it does accept the ASCII whitespace `int()` strips, the separators 0x1C to 0x1F included.
- A Count or Seed element without text makes `int(None)` raise a `TypeError` that no handler catches, and a missing suite name or id is joined into a string with the same effect. The model stops there with `TextMissing` naming the element.
- The order of the suite id lookup. In Python, `suite_id` is first read inside
  the first `test_id`, after the fixtures are looked up. The model reads it
  once, after the fixture lookups and before the first table. A specification
  without a SuiteId fails with the same error either way; only the rows
  already rendered before the failure differ, and those are not modelled.
