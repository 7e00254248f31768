/**
 * The FileBuilder: where the file of one test case goes, the number and
 * the identifiers of the test case, and the two "set" rows written at the
 * top of its table.
 */
module FileBuilding {
  import opened Wrappers
  import opened Errors
  import opened Numbers
  import opened Xml
  import opened ProductSpecs
  import TableRows

  // ---------------------------------------------------------------------------
  //  test_case_number
  // ---------------------------------------------------------------------------

  /** n characters '0'. */
  function Zeros(n: nat): (r: string)
    ensures |r| == n && forall i | 0 <= i < n :: r[i] == '0'
  {
    if n == 0 then "" else "0" + Zeros(n - 1)
  }

  /** A number's text with '0' put in front until it is four characters long; longer text is kept as it is. */
  function Padded(s: string): string {
    if |s| >= 4 then s else Zeros(4 - |s|) + s
  }

  /** Padding only adds zeros in front: the result is at least four long and ends with the text itself. */
  lemma PaddedShape(s: string)
    ensures |Padded(s)| == if |s| >= 4 then |s| else 4
    ensures Padded(s)[|Padded(s)| - |s|..] == s
    ensures forall i | 0 <= i < |Padded(s)| - |s| :: Padded(s)[i] == '0'
  {
    if |s| < 4 {
      assert (Zeros(4 - |s|) + s)[4 - |s|..] == s;
    }
  }

  /** Putting '0' in front of padded text pads it by one more zero. */
  lemma OneMoreZero(k: nat, s: string)
    ensures "0" + (Zeros(k) + s) == Zeros(k + 1) + s
  {
    assert Zeros(k + 1) == "0" + Zeros(k);
  }

  /** Zero-padded text that has just reached four characters, or was never shorter than its own text, is the padded text. */
  lemma PaddedWhenLongEnough(value: string, s: string)
    requires |value| >= |s| && value == Zeros(|value| - |s|) + s
    requires |value| >= 4 && (|value| == |s| || |value| <= 4)
    ensures value == Padded(s)
  {
    if |s| >= 4 {
      assert Zeros(0) + s == s;
    }
  }

  /** 10^k, at least 1: IntToStringLength needs that bound when it divides by ten. */
  function Pow10(k: nat): (r: nat)
    ensures r >= 1
  {
    if k == 0 then 1 else 10 * Pow10(k - 1)
  }

  /** str(n) has at most k characters exactly when n is below 10^k. */
  lemma {:induction false} IntToStringLength(n: nat, k: nat)
    requires k >= 1
    ensures |IntToString(n)| <= k <==> n < Pow10(k)
    decreases n
  {
    if n >= 10 {
      assert IntToString(n) == IntToString(n / 10) + [DigitChar(n % 10)];
      if k == 1 {
        assert Pow10(1) == 10;
      } else {
        IntToStringLength(n / 10, k - 1);
        assert n / 10 < Pow10(k - 1) <==> n < 10 * Pow10(k - 1);
      }
    } else {
      assert Pow10(k) == 10 * Pow10(k - 1);
    }
  }

  /** Zeros in front of a run of digits do not change the number it denotes. */
  lemma {:induction false} LeadingZeros(m: nat, s: string)
    requires AllDigits(s)
    ensures AllDigits(Zeros(m) + s)
    ensures DigitsValue(Zeros(m) + s) == DigitsValue(s)
    decreases |s| + m
  {
    var t := Zeros(m) + s;
    if s == [] {
      assert t == Zeros(m);
      if m > 0 {
        assert t[..|t| - 1] == Zeros(m - 1);
        LeadingZeros(m - 1, s);
        assert Zeros(m - 1) + s == Zeros(m - 1);
      }
    } else {
      var init := s[..|s| - 1];
      assert t[..|t| - 1] == Zeros(m) + init;
      assert t[|t| - 1] == s[|s| - 1];
      LeadingZeros(m, init);
    }
  }

  /** int() reads a run of digits as the number it denotes. */
  lemma ParseDigits(s: string)
    requires |s| > 0 && AllDigits(s)
    ensures ParseInt(s) == Some(DigitsValue(s))
  {
    assert s[0..] == s && s[0..1] == [s[0]];
    assert DigitsValue([s[0]]) == DigitValue(s[0]);
    ScanDigits(s, 0, 1, false);
  }

  /**
   * The test case number of a positive num is made of digits that still
   * denote num; it is exactly four digits long for num up to 9999, and is
   * str(num) unchanged from 1000 on.
   */
  lemma TestCaseNumberDigits(num: int)
    requires num > 0
    ensures AllDigits(Padded(IntToString(num)))
    ensures DigitsValue(Padded(IntToString(num))) == num
    ensures num <= 9999 <==> |Padded(IntToString(num))| == 4
    ensures num >= 1000 ==> Padded(IntToString(num)) == IntToString(num)
  {
    var s := IntToString(num);
    IntToStringDigits(num);
    IntToStringLength(num, 4);
    IntToStringLength(num, 3);
    assert Pow10(4) == 10000 && Pow10(3) == 1000;
    if |s| < 4 {
      LeadingZeros(4 - |s|, s);
    }
  }

  /** int() of the test case number gives num back. */
  lemma TestCaseNumberParses(num: int)
    requires num > 0
    ensures ParseInt(Padded(IntToString(num))) == Some(num)
  {
    TestCaseNumberDigits(num);
    PaddedShape(IntToString(num));
    ParseDigits(Padded(IntToString(num)));
  }

  /** Distinct test cases get distinct numbers. */
  lemma TestCaseNumberInjective(a: int, b: int)
    requires a > 0 && b > 0 && Padded(IntToString(a)) == Padded(IntToString(b))
    ensures a == b
  {
    TestCaseNumberParses(a);
    TestCaseNumberParses(b);
  }

  // ---------------------------------------------------------------------------
  //  Identifiers and file name
  // ---------------------------------------------------------------------------

  /** public_id: the suite id and the test case number, joined by '-'. */
  function FilePublicId(suiteId: string, number: string): string {
    suiteId + "-" + number
  }

  /** test_id: "TEST-" before the public id. */
  function FileTestId(suiteId: string, number: string): string {
    "TEST-" + suiteId + "-" + number
  }

  /**
   * The file's test id is "TEST-" before its public id, and each test
   * table's ids are the file's followed by '-' and the role's abbreviation.
   */
  lemma FileIdsAndTableIds(suiteId: string, number: string, role: TableRows.Role)
    ensures FileTestId(suiteId, number) == "TEST-" + FilePublicId(suiteId, number)
    ensures TableRows.PublicId(suiteId, number, role) == FilePublicId(suiteId, number) + "-" + TableRows.Abbreviation(role)
    ensures TableRows.TestId(suiteId, number, role) == FileTestId(suiteId, number) + "-" + TableRows.Abbreviation(role)
  {
  }

  /**
   * Tables built with the padded numbers of distinct test cases carry
   * distinct submission ids.
   */
  lemma SubmissionIdsDistinct(a: int, b: int)
    requires a > 0 && b > 0 && a != b
    ensures TableRows.SubmissionId(Padded(IntToString(a))) != TableRows.SubmissionId(Padded(IntToString(b)))
  {
    var na, nb := Padded(IntToString(a)), Padded(IntToString(b));
    if na == nb {
      TestCaseNumberInjective(a, b);
    }
    assert TableRows.SubmissionId(na) == "SUBMISSION-" + na + "";
    assert TableRows.SubmissionId(nb) == "SUBMISSION-" + nb + "";
    MiddleCancels("SUBMISSION-", na, nb, "");
  }

  /** test_suite_dir: the suite's directory inside the library. */
  function SuiteDir(library: string, suiteName: string): string {
    library + "/" + suiteName
  }

  /** test_case_filename */
  function FileName(library: string, suiteName: string, number: string, suiteId: string): string {
    SuiteDir(library, suiteName) + "/" + number + "_" + suiteId + ".html"
  }

  /** Equal texts around two middles force equal middles. */
  lemma MiddleCancels(p: string, x: string, y: string, q: string)
    ensures p + x + q == p + y + q ==> x == y
  {
    if p + x + q == p + y + q {
      assert x == (p + x + q)[|p|..|p| + |x|];
      assert y == (p + y + q)[|p|..|p| + |y|];
    }
  }

  /** In one suite, distinct test case numbers num > 0 give distinct file names. */
  lemma FileNamesDistinct(library: string, suiteName: string, suiteId: string, a: int, b: int)
    requires a > 0 && b > 0 && a != b
    ensures FileName(library, suiteName, Padded(IntToString(a)), suiteId) != FileName(library, suiteName, Padded(IntToString(b)), suiteId)
  {
    var na, nb := Padded(IntToString(a)), Padded(IntToString(b));
    if na == nb {
      TestCaseNumberInjective(a, b);
    }
    var dir, rest := SuiteDir(library, suiteName) + "/", "_" + suiteId + ".html";
    assert FileName(library, suiteName, na, suiteId) == dir + na + rest;
    assert FileName(library, suiteName, nb, suiteId) == dir + nb + rest;
    MiddleCancels(dir, na, nb, rest);
  }

  // ---------------------------------------------------------------------------
  //  process_policy
  // ---------------------------------------------------------------------------

  /** A row handed to the test case: its cells, and whether it carries class "unique". */
  datatype SetValue = SetValue(cells: seq<string>, unique: bool)

  /** add_set_value's row: set the property to the value. */
  function SetValueRow(prop: string, value: string): seq<string> {
    ["set", prop, "to", value, ""]
  }

  /** process_policy: the Test Id row, then the PublicID row marked unique. */
  function PolicyRows(testId: string, publicId: string): seq<SetValue> {
    [SetValue(SetValueRow("Test Id", testId), false), SetValue(SetValueRow("PublicID", publicId), true)]
  }

  /**
   * The two rows at the top of a test case set Test Id and PublicID, in that
   * order, only the second marked unique; the Test Id set is "TEST-" before
   * the PublicID set.
   */
  lemma PolicyRowsShape(suiteId: string, number: string)
    ensures var rows := PolicyRows(FileTestId(suiteId, number), FilePublicId(suiteId, number));
      && |rows| == 2
      && (forall i | 0 <= i < 2 :: |rows[i].cells| == 5 && rows[i].cells[0] == "set" && rows[i].cells[2] == "to" && rows[i].cells[4] == "")
      && rows[0].cells[1] == "Test Id" && !rows[0].unique
      && rows[1].cells[1] == "PublicID" && rows[1].unique
      && rows[0].cells[3] == "TEST-" + rows[1].cells[3]
  {
  }

  // ---------------------------------------------------------------------------
  //  The FileBuilder class
  // ---------------------------------------------------------------------------

  class FileBuilder {
    const spec: ProductSpec
    const library: string
    const num: int

    /** The constructor's checks: a library to write to, and a positive test case number. */
    constructor(spec: ProductSpec, library: string, num: int)
      requires |library| > 0 && num > 0
      ensures this.spec == spec && this.library == library && this.num == num
    {
      this.spec := spec;
      this.library := library;
      this.num := num;
    }

    /** test_case_number: str(num) with '0' put in front while it is shorter than four. */
    method TestCaseNumber() returns (value: string)
      ensures value == Padded(IntToString(num))
    {
      var s := IntToString(num);
      value := s;
      assert value == Zeros(0) + s;
      while |value| < 4
        invariant value == Zeros(|value| - |s|) + s
        invariant |value| == |s| || |value| <= 4
        decreases 4 - |value|
      {
        OneMoreZero(|value| - |s|, s);
        value := "0" + value;
      }
      PaddedWhenLongEnough(value, s);
    }

    /** test_suite_dir, from the suite_name of the product specification. */
    method TestSuiteDir() returns (r: Res<string>)
      requires spec.Valid()
      modifies spec`texts
      ensures spec.Valid()
      ensures r == (var name :- FetchString(spec.root, "SuiteName"); Ok(SuiteDir(library, name)))
    {
      var name :- spec.TextString("SuiteName");
      return Ok(SuiteDir(library, name));
    }

    /** suite_id, where the caller joins it to other text: a suite id without text stops the run. */
    method SuiteId() returns (r: Res<string>)
      requires spec.Valid()
      modifies spec`texts
      ensures spec.Valid()
      ensures r == FetchString(spec.root, "SuiteId")
    {
      r := spec.TextString("SuiteId");
    }

    /** test_case_filename: the suite's directory is looked up before the suite id. */
    method TestCaseFilename() returns (r: Res<string>)
      requires spec.Valid()
      modifies spec`texts
      ensures spec.Valid()
      ensures r == (var name :- FetchString(spec.root, "SuiteName");
                    var suiteId :- FetchString(spec.root, "SuiteId");
                    Ok(FileName(library, name, Padded(IntToString(num)), suiteId)))
    {
      var dir :- TestSuiteDir();
      var number := TestCaseNumber();
      var suiteId :- SuiteId();
      return Ok(dir + "/" + number + "_" + suiteId + ".html");
    }

    /** test_id */
    method TestId() returns (r: Res<string>)
      requires spec.Valid()
      modifies spec`texts
      ensures spec.Valid()
      ensures r == (var suiteId :- FetchString(spec.root, "SuiteId"); Ok(FileTestId(suiteId, Padded(IntToString(num)))))
    {
      var suiteId :- SuiteId();
      var number := TestCaseNumber();
      return Ok("TEST-" + suiteId + "-" + number);
    }

    /** public_id */
    method PublicId() returns (r: Res<string>)
      requires spec.Valid()
      modifies spec`texts
      ensures spec.Valid()
      ensures r == (var suiteId :- FetchString(spec.root, "SuiteId"); Ok(FilePublicId(suiteId, Padded(IntToString(num)))))
    {
      var suiteId :- SuiteId();
      var number := TestCaseNumber();
      return Ok(suiteId + "-" + number);
    }

    /** process_policy: the rows it hands to the test case through add_set_value. */
    method ProcessPolicy() returns (r: Res<seq<SetValue>>)
      requires spec.Valid()
      modifies spec`texts
      ensures spec.Valid()
      ensures r == (var suiteId :- FetchString(spec.root, "SuiteId");
                    Ok(PolicyRows(FileTestId(suiteId, Padded(IntToString(num))), FilePublicId(suiteId, Padded(IntToString(num))))))
    {
      var testId :- TestId();
      var first := SetValue(SetValueRow("Test Id", testId), false);
      // The suite id was found for the test id, so the public id is found too.
      var publicId := PublicId();
      return Ok([first, SetValue(SetValueRow("PublicID", publicId.value), true)]);
    }
  }
}
