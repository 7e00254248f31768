/**
 * ProductSpec: the reader of the product specification. The domain queries
 * that need no draw are functions of the root element; the object itself
 * holds the memoised accessors, the fixture list it fills on first use and
 * the cursor into the random stream that every draw advances.
 */
module ProductSpecs {
  import opened Wrappers
  import opened Errors
  import opened Numbers
  import opened Xml
  import opened Selection

  // ---------------------------------------------------------------------------
  //  Fixtures
  // ---------------------------------------------------------------------------

  /**
   * A Fixture element: the role a table plays and the fixture class that
   * runs it, each None when its element has no text.
   */
  datatype Fixture = Fixture(role: Option<string>, fixtureClass: Option<string>)

  /** Fixture(element): the texts of its Role and FixtureClass children. */
  function ParseFixture(e: Element): (r: Res<Fixture>)
    ensures r.Ok? <==> FetchText(e, "Role").Ok? && FetchText(e, "FixtureClass").Ok?
    ensures r.Ok? ==> r.value.role == Find(e, "Role").value.text
    ensures r.Ok? ==> r.value.fixtureClass == Find(e, "FixtureClass").value.text
  {
    var role :- FetchText(e, "Role");
    var fixtureClass :- FetchText(e, "FixtureClass");
    Ok(Fixture(role, fixtureClass))
  }

  /**
   * The fixtures parsed from es[k..] in order, up to the first Fixture
   * element that cannot be parsed, and that element's error if there is one.
   */
  function ScanFixtures(es: seq<Element>, k: nat): (r: (seq<Fixture>, Option<SuiteError>))
    requires k <= |es|
    ensures |r.0| <= |es| - k
    ensures r.1.None? ==> |r.0| == |es| - k
    ensures r.1.Some? ==> |r.0| < |es| - k
    decreases |es| - k
  {
    if k == |es| then ([], None)
    else match ParseFixture(es[k])
      case Err(e) => ([], Some(e))
      case Ok(f) =>
        var rest := ScanFixtures(es, k + 1);
        ([f] + rest.0, rest.1)
  }

  /** The scan keeps every element it passes, parsed, in order. */
  lemma {:induction false} ScanFixturesParsed(es: seq<Element>, k: nat)
    requires k <= |es|
    ensures forall i | 0 <= i < |ScanFixtures(es, k).0| :: ParseFixture(es[k + i]) == Ok(ScanFixtures(es, k).0[i])
    decreases |es| - k
  {
    if k < |es| && ParseFixture(es[k]).Ok? {
      var rest := ScanFixtures(es, k + 1);
      ScanFixturesParsed(es, k + 1);
      var r := ScanFixtures(es, k);
      assert r.0 == [ParseFixture(es[k]).value] + rest.0;
      forall i | 1 <= i < |r.0| ensures ParseFixture(es[k + i]) == Ok(r.0[i]) {
        var j := i - 1;
        var m := (k + 1) + j;
        assert ParseFixture(es[m]) == Ok(rest.0[j]);
        assert r.0[i] == rest.0[j] && m == k + i;
      }
    }
  }

  /** The scan stops only at an element that does not parse, and reports that element's error. */
  lemma {:induction false} ScanFixturesStops(es: seq<Element>, k: nat)
    requires k <= |es|
    ensures var r := ScanFixtures(es, k);
      r.1.Some? ==> ParseFixture(es[k + |r.0|]) == Err(r.1.value)
    decreases |es| - k
  {
    if k < |es| && ParseFixture(es[k]).Ok? {
      var rest := ScanFixtures(es, k + 1);
      ScanFixturesStops(es, k + 1);
      assert k + |ScanFixtures(es, k).0| == (k + 1) + |rest.0|;
    }
  }

  /** The Fixture children of the Fixtures element, or the error finding it. */
  function FixtureElements(root: Element): (r: Res<seq<Element>>)
    ensures r.Ok? ==> forall e | e in r.value :: e.tag == "Fixture"
    ensures r.Err? ==> r.error == ElementNotFound("Fixtures", root.tag)
  {
    var fe :- Find(root, "Fixtures");
    Ok(FindAll(fe, "Fixture"))
  }

  /** What the first access to `fixtures` leaves in the list, even when it then fails. */
  function LoadedFixtures(root: Element): seq<Fixture> {
    match FixtureElements(root)
    case Err(_) => []
    case Ok(es) => ScanFixtures(es, 0).0
  }

  /**
   * What the first access to `fixtures` returns: every Fixture parsed, an
   * error for the first malformed one, and an error when there is none.
   */
  function FixturesOf(root: Element): (r: Res<seq<Fixture>>)
    ensures r.Ok? ==> r.value != [] && r.value == LoadedFixtures(root)
    ensures r.Ok? ==> |r.value| == |FixtureElements(root).value|
    ensures FixtureElements(root) == Ok([]) ==> r == Err(NoFixtures)
  {
    var es :- FixtureElements(root);
    var scan := ScanFixtures(es, 0);
    if scan.1.Some? then Err(scan.1.value)
    else if scan.0 == [] then Err(NoFixtures)
    else Ok(scan.0)
  }

  /**
   * What an access to `fixtures` returns when the list already holds `fs`:
   * a list that is not empty is returned as it is, an empty one is loaded.
   */
  function FixturesAccess(fs: seq<Fixture>, root: Element): Res<seq<Fixture>> {
    if fs != [] then Ok(fs) else FixturesOf(root)
  }

  /** fetch_fixture over a fixture list: the class of the first fixture with the role, None when there is none. */
  function FixtureFor(fs: seq<Fixture>, role: string): Option<string> {
    if fs == [] then None
    else if fs[0].role == Some(role) then fs[0].fixtureClass
    else FixtureFor(fs[1..], role)
  }

  /** Fixture i is the first one declared for the role. */
  ghost predicate FirstWithRole(fs: seq<Fixture>, role: string, i: int) {
    0 <= i < |fs| && fs[i].role == Some(role) && forall j | 0 <= j < i :: fs[j].role != Some(role)
  }

  /**
   * FixtureFor finds a class exactly when the first fixture declared for the
   * role has one, and then it is that class; with no fixture for the role it
   * finds nothing.
   */
  lemma {:induction false} FixtureForMeaning(fs: seq<Fixture>, role: string)
    ensures FixtureFor(fs, role).Some? <==> exists i :: FirstWithRole(fs, role, i) && fs[i].fixtureClass.Some?
    ensures FixtureFor(fs, role).Some? ==> exists i :: FirstWithRole(fs, role, i) && fs[i].fixtureClass == FixtureFor(fs, role)
    ensures (forall i | 0 <= i < |fs| :: fs[i].role != Some(role)) ==> FixtureFor(fs, role).None?
  {
    if fs != [] {
      if fs[0].role == Some(role) {
        assert FirstWithRole(fs, role, 0);
        forall i | FirstWithRole(fs, role, i) ensures i == 0 {
        }
      } else {
        FixtureForMeaning(fs[1..], role);
        forall i | FirstWithRole(fs[1..], role, i) ensures FirstWithRole(fs, role, i + 1) {
          forall j | 0 <= j < i + 1 ensures fs[j].role != Some(role) {
            if j > 0 {
              assert fs[j] == fs[1..][j - 1];
            }
          }
        }
        forall i | FirstWithRole(fs, role, i) ensures i > 0 && FirstWithRole(fs[1..], role, i - 1) {
          assert forall j | 0 <= j < i - 1 :: fs[1..][j] == fs[j + 1];
        }
        if forall i | 0 <= i < |fs| :: fs[i].role != Some(role) {
          assert forall i | 0 <= i < |fs[1..]| :: fs[1..][i] == fs[i + 1];
        }
      }
    }
  }

  // ---------------------------------------------------------------------------
  //  Scalar accessors
  // ---------------------------------------------------------------------------

  /** The integer in the Count text, or why there is none: what the first access to `count` returns. */
  function CountOf(root: Element): (r: Res<int>)
    ensures r.Ok? ==> r.value >= 0
    ensures r.Ok? ==> FetchString(root, "Count").Ok? && ParseInt(FetchString(root, "Count").value) == Some(r.value)
  {
    var text :- FetchString(root, "Count");
    match ParseInt(text)
    case None => Err(CountNotNumber(text))
    case Some(n) => if n < 0 then Err(NegativeCount(text)) else Ok(n)
  }

  /** A Count element holding str(n) gives n when n >= 0 and is refused as negative otherwise. */
  lemma {:induction false} CountOfPrinted(root: Element, n: int)
    requires FetchText(root, "Count") == Ok(Some(IntToString(n)))
    ensures n >= 0 ==> CountOf(root) == Ok(n)
    ensures n < 0 ==> CountOf(root) == Err(NegativeCount(IntToString(n)))
  {
    ParseIntToString(n);
  }

  /** The integer in the Seed text, or SeedNotInteger. */
  function SeedOf(root: Element): (r: Res<int>)
    ensures r.Ok? ==> FetchString(root, "Seed").Ok? && ParseInt(FetchString(root, "Seed").value) == Some(r.value)
    ensures r.Err? && FetchString(root, "Seed").Ok? ==> r.error == SeedNotInteger(FetchString(root, "Seed").value)
    ensures FetchString(root, "Seed").Err? ==> r == Err(FetchString(root, "Seed").error)
  {
    var text :- FetchString(root, "Seed");
    match ParseInt(text)
    case None => Err(SeedNotInteger(text))
    case Some(n) => Ok(n)
  }

  /** The tags whose text the object memoises: suite_name, suite_id, project, author, description. */
  predicate MemoTag(tag: string) {
    tag in {"SuiteName", "SuiteId", "ProjectName", "Author", "Description"}
  }

  /** product_name: the ProductCode of the Product element. */
  function ProductNameOf(root: Element): (r: Res<Option<string>>)
    ensures r.Ok? <==> Find(root, "Product").Ok? && FetchText(Find(root, "Product").value, "ProductCode").Ok?
    ensures r.Err? && Find(root, "Product").Err? ==> r.error == ElementNotFound("Product", root.tag)
  {
    var product :- Find(root, "Product");
    FetchText(product, "ProductCode")
  }

  // ---------------------------------------------------------------------------
  //  Quote and bind markers
  // ---------------------------------------------------------------------------

  /** should_quote: the Policy holds a Quote or a Bind element. */
  function ShouldQuote(root: Element): (r: Res<bool>)
    ensures r.Ok? <==> Find(root, "Policy").Ok?
    ensures r.Err? ==> r.error == ElementNotFound("Policy", root.tag)
  {
    var policy :- Find(root, "Policy");
    Ok(HasElement(policy, "Quote") || HasElement(policy, "Bind"))
  }

  /** should_bind: the Policy holds a Bind element. */
  function ShouldBind(root: Element): (r: Res<bool>)
    ensures r.Ok? <==> Find(root, "Policy").Ok?
    ensures r.Err? ==> r.error == ElementNotFound("Policy", root.tag)
  {
    var policy :- Find(root, "Policy");
    Ok(HasElement(policy, "Bind"))
  }

  /** Both markers are read off the children of the first Policy element. */
  lemma QuoteMarkers(root: Element)
    ensures ShouldQuote(root).Ok? ==>
      (ShouldQuote(root).value <==> exists c | c in Find(root, "Policy").value.children :: c.tag == "Quote" || c.tag == "Bind")
    ensures ShouldBind(root).Ok? ==>
      (ShouldBind(root).value <==> exists c | c in Find(root, "Policy").value.children :: c.tag == "Bind")
  {
    if Find(root, "Policy").Ok? {
      var policy := Find(root, "Policy").value;
      FindSucceedsIffPresent(policy, "Quote");
      FindSucceedsIffPresent(policy, "Bind");
    }
  }

  /** A submission to be bound is always to be quoted; the two fail together. */
  lemma ShouldBindImpliesQuote(root: Element)
    ensures ShouldBind(root).Ok? <==> ShouldQuote(root).Ok?
    ensures ShouldBind(root) == Ok(true) ==> ShouldQuote(root) == Ok(true)
  {
  }

  /** quote_element: the Quote element of the Policy, which exists only when should_quote holds. */
  function QuoteElement(root: Element): (r: Res<Element>)
    ensures r.Ok? ==> r.value.tag == "Quote" && ShouldQuote(root) == Ok(true)
  {
    var policy :- Find(root, "Policy");
    Find(policy, "Quote")
  }

  // ---------------------------------------------------------------------------
  //  Domain queries without draws
  // ---------------------------------------------------------------------------

  /** fetch_question_sets: the QuestionSet children of Product. */
  function QuestionSets(root: Element): (r: Res<seq<Element>>)
    ensures r.Ok? <==> Find(root, "Product").Ok?
    ensures r.Ok? ==> forall i | 0 <= i < |r.value| :: r.value[i].tag == "QuestionSet"
  {
    var product :- Find(root, "Product");
    Ok(FindAll(product, "QuestionSet"))
  }

  /** fetch_questions: the Question children of a question set. */
  function Questions(questionSet: Element): (r: seq<Element>)
    ensures forall i | 0 <= i < |r| :: r[i].tag == "Question"
  {
    FindAll(questionSet, "Question")
  }

  /**
   * fetch_coverage_terms: the CoverageTerm children of a coverage. It has the
   * shape of Questions because the two accessors are separate functions of
   * the same shape in the program; each keeps its own name so that the table
   * builders read as their callers do.
   */
  function CoverageTerms(coverage: Element): (r: seq<Element>)
    ensures forall i | 0 <= i < |r| :: r[i].tag == "CoverageTerm"
  {
    FindAll(coverage, "CoverageTerm")
  }

  /** Coverable i is named HOPDwelling and those from k up to it have names that are not. */
  ghost predicate FirstDwellingAt(coverables: seq<Element>, k: nat, i: nat)
    requires k <= i < |coverables|
  {
    && FetchText(coverables[i], "CoverableName") == Ok(Some("HOPDwelling"))
    && forall j | k <= j < i :: FetchText(coverables[j], "CoverableName").Ok? && FetchText(coverables[j], "CoverableName") != Ok(Some("HOPDwelling"))
  }

  /** fetch_dwelling from coverable k on: the first coverable named HOPDwelling. */
  function DwellingFrom(coverables: seq<Element>, k: nat): (r: Res<Option<Element>>)
    requires k <= |coverables|
    ensures r.Ok? && r.value.Some? ==>
              r.value.value in coverables[k..] && FetchText(r.value.value, "CoverableName") == Ok(Some("HOPDwelling"))
    ensures r.Ok? && r.value.None? ==> forall i | k <= i < |coverables| :: FetchText(coverables[i], "CoverableName") != Ok(Some("HOPDwelling"))
    decreases |coverables| - k
  {
    if k == |coverables| then Ok(None)
    else
      var name :- FetchText(coverables[k], "CoverableName");
      if name == Some("HOPDwelling") then Ok(Some(coverables[k]))
      else DwellingFrom(coverables, k + 1)
  }

  /** The dwelling found from k on is the first coverable from k on named HOPDwelling. */
  lemma {:induction false} DwellingFromFirst(coverables: seq<Element>, k: nat)
    requires k <= |coverables| && DwellingFrom(coverables, k).Ok? && DwellingFrom(coverables, k).value.Some?
    ensures exists i | k <= i < |coverables| :: FirstDwellingAt(coverables, k, i) && coverables[i] == DwellingFrom(coverables, k).value.value
    decreases |coverables| - k
  {
    var name := FetchText(coverables[k], "CoverableName");
    if name == Ok(Some("HOPDwelling")) {
      assert FirstDwellingAt(coverables, k, k);
    } else {
      var k1 := k + 1;
      DwellingFromNext(coverables, k, k1);
      DwellingFromFirst(coverables, k1);
      var i :| k1 <= i < |coverables| && FirstDwellingAt(coverables, k1, i) && coverables[i] == DwellingFrom(coverables, k1).value.value;
      FirstDwellingAtCons(coverables, k, k1, i);
    }
  }

  /** Past a coverable with another readable name, the scan goes on from the next one. */
  lemma DwellingFromNext(coverables: seq<Element>, k: nat, k1: nat)
    requires k < |coverables| && k1 == k + 1 && DwellingFrom(coverables, k).Ok?
    requires FetchText(coverables[k], "CoverableName") != Ok(Some("HOPDwelling"))
    ensures FetchText(coverables[k], "CoverableName").Ok?
    ensures DwellingFrom(coverables, k) == DwellingFrom(coverables, k1)
  {
  }

  lemma FirstDwellingAtCons(coverables: seq<Element>, k: nat, k1: nat, i: nat)
    requires k1 == k + 1 && k1 <= i < |coverables| && FirstDwellingAt(coverables, k1, i)
    requires FetchText(coverables[k], "CoverableName").Ok? && FetchText(coverables[k], "CoverableName") != Ok(Some("HOPDwelling"))
    ensures FirstDwellingAt(coverables, k, i)
  {
  }

  /**
   * fetch_dwelling: the first Coverable of the Product named HOPDwelling;
   * its absence is an error, the one the property fetchers would hit on None.
   */
  function Dwelling(root: Element): (r: Res<Element>)
    ensures r.Ok? ==> r.value.tag == "Coverable" && FetchText(r.value, "CoverableName") == Ok(Some("HOPDwelling"))
  {
    var product :- Find(root, "Product");
    var found :- DwellingFrom(FindAll(product, "Coverable"), 0);
    if found.None? then Err(DwellingMissing) else Ok(found.value)
  }

  // ---------------------------------------------------------------------------
  //  Domain queries that draw
  // ---------------------------------------------------------------------------

  /** fetch_question_code_and_answer: the QuestionCode text and one Answer chosen with one draw. */
  function QuestionAnswer(question: Element, rng: Stream, pos: nat): (r: Res<((Option<string>, Option<string>), nat)>)
    ensures r.Ok? ==> r.value.1 == pos + 1
    ensures r.Ok? ==> Ok(r.value.0.0) == FetchText(question, "QuestionCode")
    ensures r.Ok? ==> Ok(r.value.0.1) == ChosenValue(question, Some("Question"), "Answer", rng(pos))
  {
    var code :- FetchText(question, "QuestionCode");
    var answer :- ChosenValue(question, Some("Question"), "Answer", rng(pos));
    Ok(((code, answer), pos + 1))
  }

  /** fetch_coverage_term_value: one Term of the coverage term chosen with one draw. */
  function TermValue(term: Element, rng: Stream, pos: nat): (r: Res<(Option<string>, nat)>)
    ensures r.Ok? ==> r.value.1 == pos + 1
    ensures r.Ok? ==> Ok(r.value.0) == ChosenValue(term, Some("CoverageTerm"), "Term", rng(pos))
  {
    var value :- ChosenValue(term, Some("CoverageTerm"), "Term", rng(pos));
    Ok((value, pos + 1))
  }

  /** The Property children of an element and the choice process_property makes for each. */
  function PropertyChoices(parent: Element, rng: Stream, pos: nat): Res<(seq<Choice>, nat)> {
    ChoicesFrom(FindAll(parent, "Property"), 0, rng, pos)
  }

  /** fetch_property_headings: the name of each property, None where it was not selected. */
  function HeadingsOf(s: Res<(seq<Choice>, nat)>): (r: Res<(seq<Option<string>>, nat)>)
    ensures r.Ok? <==> s.Ok?
    ensures r.Ok? ==> r.value.0 == Names(s.value.0) && r.value.1 == s.value.1
  {
    var v :- s;
    Ok((Names(v.0), v.1))
  }

  /** fetch_property_values: the chosen value of each property, None where it was not selected. */
  function ValuesOf(s: Res<(seq<Choice>, nat)>): (r: Res<(seq<Option<string>>, nat)>)
    ensures r.Ok? <==> s.Ok?
    ensures r.Ok? ==> r.value.0 == Values(s.value.0) && r.value.1 == s.value.1
  {
    var v :- s;
    Ok((Values(v.0), v.1))
  }

  /**
   * Column i of fetch_property_headings and fetch_property_values belongs to
   * the i-th Property child: its inclusion draw is the one after the draws of
   * the children before it (one per excluded child, two per included one);
   * it is included exactly when that draw does not exceed its weight; an
   * excluded child gives None in both rows; an included one gives its
   * PropertyName text as heading and, as value, the Value chosen by the next
   * draw. Both rows have one column per child, and the cursor ends after the
   * draws of all children.
   */
  lemma PropertyColumnsAt(parent: Element, rng: Stream, pos: nat, i: nat)
    requires PropertyChoices(parent, rng, pos).Ok? && i < |FindAll(parent, "Property")|
    ensures var props := FindAll(parent, "Property");
      var cs := PropertyChoices(parent, rng, pos).value.0;
      var h := HeadingsOf(PropertyChoices(parent, rng, pos)).value;
      var v := ValuesOf(PropertyChoices(parent, rng, pos)).value;
      && |h.0| == |props| && |v.0| == |props| && i < |cs|
      && h.1 == pos + TotalDraws(cs) && v.1 == h.1
      && FetchWeight(props[i]).Ok? && FetchText(props[i], "PropertyName").Ok?
      && (cs[i].Included? <==> rng(pos + TotalDraws(cs[..i])) <= FetchWeight(props[i]).value)
      && (cs[i].Excluded? ==> h.0[i] == None && v.0[i] == None)
      && (cs[i].Included? ==>
            h.0[i] == FetchText(props[i], "PropertyName").value
            && Ok(v.0[i]) == ChosenValue(props[i], h.0[i], "Value", rng(pos + TotalDraws(cs[..i]) + 1)))
  {
    var props := FindAll(parent, "Property");
    var cs := PropertyChoices(parent, rng, pos).value.0;
    ChoicesFromDraws(props, 0, rng, pos);
    ChoicesFromAt(props, 0, rng, pos, i);
    ChoiceAtMeaning(props[i], rng, cs, i, pos, pos + TotalDraws(cs[..i]));
  }

  /** account_number: the AccountNumber property of the Policy; its absence is an error. */
  function AccountNumberOf(root: Element, rng: Stream, pos: nat): (r: Res<(string, nat)>)
    ensures Find(root, "Policy").Err? ==> r == Err(ElementNotFound("Policy", root.tag))
    ensures Find(root, "Policy").Ok? ==>
              var found := NamedValueFrom(FindAll(Find(root, "Policy").value, "Property"), 0, "AccountNumber", rng, pos);
              && (found.Err? ==> r == Err(found.error))
              && (found.Ok? && found.value.0.None? ==> r == Err(AccountNumberMissing))
              && (found.Ok? && found.value.0.Some? ==> r == Ok((found.value.0.value, found.value.1)))
  {
    var policy :- Find(root, "Policy");
    var found :- NamedValueFrom(FindAll(policy, "Property"), 0, "AccountNumber", rng, pos);
    if found.0.None? then Err(AccountNumberMissing) else Ok((found.0.value, found.1))
  }

  /** submission_date: the SubmissionDate property of the Policy, `today` when it is absent. */
  function SubmissionDateOf(root: Element, today: string, rng: Stream, pos: nat): (r: Res<(string, nat)>)
    ensures r.Ok? <==>
              Find(root, "Policy").Ok? && NamedValueFrom(FindAll(Find(root, "Policy").value, "Property"), 0, "SubmissionDate", rng, pos).Ok?
    ensures r.Ok? ==>
              var found := NamedValueFrom(FindAll(Find(root, "Policy").value, "Property"), 0, "SubmissionDate", rng, pos).value;
              && r.value.1 == found.1
              && (found.0.None? ==> r.value.0 == today)
              && (found.0.Some? ==> r.value.0 == found.0.value)
  {
    var policy :- Find(root, "Policy");
    var found :- NamedValueFrom(FindAll(policy, "Property"), 0, "SubmissionDate", rng, pos);
    Ok((if found.0.None? then today else found.0.value, found.1))
  }

  /** A Policy without properties yields today's date and takes no draw. */
  lemma SubmissionDateDefault(root: Element, today: string, rng: Stream, pos: nat)
    requires Find(root, "Policy").Ok? && FindAll(Find(root, "Policy").value, "Property") == []
    ensures SubmissionDateOf(root, today, rng, pos) == Ok((today, pos))
  {
  }

  // ---------------------------------------------------------------------------
  //  The object
  // ---------------------------------------------------------------------------

  class ProductSpec {
    /** The parsed TestSuite element. */
    const root: Element
    /** The draws random_selector would return, in order. */
    const rng: Stream
    /** How many draws have been taken. */
    var drawn: nat
    /** _count: set once the Count text parses, before its sign is checked. */
    var countMemo: Option<int>
    /** _seed */
    var seedMemo: Option<int>
    /** _suite_name, _suite_id, _project, _author, _description, keyed by tag; a text that is None is not kept. */
    var texts: map<string, string>
    /** _product_name */
    var productNameMemo: Option<string>
    /** _fixtures */
    var fixtures: seq<Fixture>

    /** Every memo holds what the specification gives for it. */
    ghost predicate Valid()
      reads this`countMemo, this`seedMemo, this`texts, this`productNameMemo, this`fixtures
    {
      && root.tag == "TestSuite"
      && (countMemo.Some? ==> FetchString(root, "Count").Ok? && ParseInt(FetchString(root, "Count").value) == countMemo)
      && (seedMemo.Some? ==> SeedOf(root) == Ok(seedMemo.value))
      && (forall t | t in texts :: MemoTag(t) && FetchText(root, t) == Ok(Some(texts[t])))
      && (productNameMemo.Some? ==> ProductNameOf(root) == Ok(productNameMemo))
      && (fixtures == [] || fixtures == LoadedFixtures(root))
    }

    /** A specification whose root is the TestSuite element, before any access or draw. */
    constructor (root: Element, rng: Stream)
      requires root.tag == "TestSuite"
      ensures Valid()
      ensures this.root == root && this.rng == rng && drawn == 0
      ensures countMemo == None && seedMemo == None && texts == map[] && productNameMemo == None && fixtures == []
    {
      this.root := root;
      this.rng := rng;
      drawn := 0;
      countMemo := None;
      seedMemo := None;
      texts := map[];
      productNameMemo := None;
      fixtures := [];
    }

    /** parse, once the file is read: the root element must be TestSuite. */
    static method Load(root: Element, rng: Stream) returns (r: Res<ProductSpec>)
      ensures r.Ok? <==> root.tag == "TestSuite"
      ensures r.Err? ==> r.error == RootNotTestSuite(root.tag)
      ensures r.Ok? ==> fresh(r.value) && r.value.Valid() && r.value.root == root && r.value.rng == rng && r.value.drawn == 0
      ensures r.Ok? ==> r.value.fixtures == []
    {
      if root.tag != "TestSuite" {
        return Err(RootNotTestSuite(root.tag));
      }
      var spec := new ProductSpec(root, rng);
      return Ok(spec);
    }

    /** random_selector: the next draw. */
    method RandomSelector() returns (d: Draw)
      modifies this`drawn
      ensures d == rng(old(drawn)) && drawn == old(drawn) + 1
    {
      d := rng(drawn);
      drawn := drawn + 1;
    }

    /** count: parsed and checked on first access; the parsed value is kept even when negative. */
    method Count() returns (r: Res<int>)
      requires Valid()
      modifies this`countMemo
      ensures Valid()
      ensures old(countMemo).Some? ==> r == Ok(old(countMemo).value) && countMemo == old(countMemo)
      ensures old(countMemo).None? ==> r == CountOf(root)
      ensures old(countMemo).None? && r.Err? && r.error.NegativeCount? ==> countMemo.Some? && countMemo.value < 0
      ensures old(countMemo).None? && r.Ok? ==> countMemo == Some(r.value)
    {
      if countMemo.Some? {
        return Ok(countMemo.value);
      }
      var text :- FetchString(root, "Count");
      match ParseInt(text)
      case None =>
        r := Err(CountNotNumber(text));
      case Some(n) =>
        countMemo := Some(n);
        if n < 0 {
          r := Err(NegativeCount(text));
        } else {
          r := Ok(n);
        }
    }

    /** seed: parsed on first access. It is never applied to the random stream. */
    method Seed() returns (r: Res<int>)
      requires Valid()
      modifies this`seedMemo
      ensures Valid()
      ensures r == SeedOf(root)
      ensures r.Ok? ==> seedMemo == Some(r.value)
    {
      if seedMemo.Some? {
        return Ok(seedMemo.value);
      }
      r := SeedOf(root);
      if r.Ok? {
        seedMemo := Some(r.value);
      }
    }

    /**
     * suite_name, suite_id, project, author and description: the text of a
     * child of the root, kept once it is found to be a string; a None is
     * fetched again on the next access.
     */
    method Text(tag: string) returns (r: Res<Option<string>>)
      requires Valid() && MemoTag(tag)
      modifies this`texts
      ensures Valid()
      ensures r == FetchText(root, tag)
      ensures tag in old(texts) || !(r.Ok? && r.value.Some?) ==> texts == old(texts)
      ensures tag !in old(texts) && r.Ok? && r.value.Some? ==> texts == old(texts)[tag := r.value.value]
    {
      if tag in texts {
        r := Ok(Some(texts[tag]));
        return;
      }
      r := FetchText(root, tag);
      if r.Ok? && r.value.Some? {
        texts := texts[tag := r.value.value];
      }
    }

    /**
     * An accessor's text where the caller joins it to other text: a child
     * without text stops the run with TextMissing.
     */
    method TextString(tag: string) returns (r: Res<string>)
      requires Valid() && MemoTag(tag)
      modifies this`texts
      ensures Valid()
      ensures r == FetchString(root, tag)
    {
      var text :- Text(tag);
      if text.None? {
        return Err(TextMissing(tag));
      }
      return Ok(text.value);
    }

    /** product_name, kept once it is found to be a string. */
    method ProductName() returns (r: Res<Option<string>>)
      requires Valid()
      modifies this`productNameMemo
      ensures Valid()
      ensures r == ProductNameOf(root)
      ensures r.Ok? && r.value.Some? ==> productNameMemo == r.value
    {
      if productNameMemo.Some? {
        return Ok(productNameMemo);
      }
      r := ProductNameOf(root);
      if r.Ok? && r.value.Some? {
        productNameMemo := r.value;
      }
    }

    /**
     * fixtures: on first access, one Fixture appended per Fixture element
     * until a malformed one stops the loop; an empty list is then an error.
     * A list left partly filled by a failed access is returned as it is.
     */
    method Fixtures() returns (r: Res<seq<Fixture>>)
      requires Valid()
      modifies this`fixtures
      ensures Valid()
      ensures r == FixturesAccess(old(fixtures), root)
      ensures old(fixtures) != [] ==> fixtures == old(fixtures)
      ensures old(fixtures) == [] ==> fixtures == LoadedFixtures(root)
    {
      if fixtures == [] {
        var found := FixtureElements(root);
        if found.Err? {
          return Err(found.error);
        }
        FixturesFromElements(root, found.value);
        var failure := AppendFixtures(found.value);
        if failure.Some? {
          return Err(failure.value);
        }
      }
      if fixtures == [] {
        return Err(NoFixtures);
      }
      return Ok(fixtures);
    }

    /** The loop of the first access: append each parsed Fixture element until a malformed one. */
    method AppendFixtures(es: seq<Element>) returns (failure: Option<SuiteError>)
      requires fixtures == []
      modifies this`fixtures
      ensures fixtures == ScanFixtures(es, 0).0 && failure == ScanFixtures(es, 0).1
    {
      var i := 0;
      while i < |es|
        invariant 0 <= i <= |es|
        invariant ScanFixtures(es, 0).0 == fixtures + ScanFixtures(es, i).0
        invariant ScanFixtures(es, 0).1 == ScanFixtures(es, i).1
      {
        var f := ParseFixture(es[i]);
        ScanFixturesStep(es, i);
        if f.Err? {
          assert fixtures == fixtures + ScanFixtures(es, i).0;
          return Some(f.error);
        }
        assert fixtures + ScanFixtures(es, i).0 == (fixtures + [f.value]) + ScanFixtures(es, i + 1).0;
        fixtures := fixtures + [f.value];
        i := i + 1;
      }
      assert fixtures == fixtures + ScanFixtures(es, i).0;
      return None;
    }

    /** fetch_fixture: the class of the first fixture whose role matches, None when there is none. */
    method FetchFixture(role: string) returns (r: Res<Option<string>>)
      requires Valid()
      modifies this`fixtures
      ensures Valid()
      ensures FixturesAccess(old(fixtures), root).Ok? ==>
        r == Ok(FixtureFor(FixturesAccess(old(fixtures), root).value, role))
      ensures FixturesAccess(old(fixtures), root).Err? ==> r == Err(FixturesAccess(old(fixtures), root).error)
      ensures old(fixtures) == [] ==> fixtures == LoadedFixtures(root)
      ensures old(fixtures) != [] ==> fixtures == old(fixtures)
    {
      var fs :- Fixtures();
      var found := FindFixture(fs, role);
      return Ok(found);
    }

    /** process_values, over the selector it is given: the loop accumulating sum_weights. */
    method ProcessValues(p: Element, name: Option<string>, valueTag: string, selector: int) returns (r: Res<Option<string>>)
      requires valueTag != ""
      ensures r == ChosenValue(p, name, valueTag, selector)
    {
      var values := FindAll(p, valueTag);
      var sum := 0;
      var i := 0;
      while i < |values|
        invariant 0 <= i <= |values|
        invariant ChosenFrom(values, 0, selector, 0, name, valueTag) == ChosenFrom(values, i, selector, sum, name, valueTag)
      {
        var fw := FetchWeight(values[i]);
        if fw.Err? {
          assert ChosenFrom(values, i, selector, sum, name, valueTag) == Err(fw.error);
          return Err(fw.error);
        }
        ghost var before := sum;
        sum := sum + fw.value;
        if selector <= sum {
          ChosenFromStep(values, i, selector, before, name, valueTag);
          return Ok(values[i].text);
        }
        ChosenFromNext(values, i, selector, before, i + 1, sum, name, valueTag);
        i := i + 1;
      }
      return Err(NoValueSelected(name, valueTag));
    }

    /** fetch_selected_elements: one draw per child with the tag, kept when the draw does not exceed its weight. */
    method FetchSelectedElements(parent: Element, tag: string) returns (r: Res<seq<Element>>)
      requires tag != ""
      modifies this`drawn
      ensures Tracks(r, drawn, SelectedFrom(FindAll(parent, tag), 0, rng, old(drawn)))
    {
      var es := FindAll(parent, tag);
      var results := [];
      var i := 0;
      PrependNothing(SelectedFrom(es, 0, rng, drawn));
      while i < |es|
        invariant 0 <= i <= |es|
        invariant SelectedFrom(es, 0, rng, old(drawn)) == Prepend(results, SelectedFrom(es, i, rng, drawn))
      {
        var before := drawn;
        var selector := RandomSelector();
        var select := SelectElement(es[i], selector);
        if select.Err? {
          assert SelectedFrom(es, i, rng, before) == Err(select.error);
          return Err(select.error);
        }
        var keep := select.value;
        assert SelectedFrom(es, i, rng, before) == Prepend(if keep then [es[i]] else [], SelectedFrom(es, i + 1, rng, drawn));
        PrependTwice(results, if keep then [es[i]] else [], SelectedFrom(es, i + 1, rng, drawn));
        results := results + if keep then [es[i]] else [];
        i := i + 1;
      }
      assert results + [] == results;
      r := Ok(results);
    }

    /** process_property: the name, one inclusion draw and, when included, a second draw for the value. */
    method ProcessProperty(p: Element, nameTag: string, valueTag: string) returns (r: Res<Choice>)
      requires nameTag != "" && valueTag != ""
      modifies this`drawn
      ensures Tracks(r, drawn, PropertyChoice(p, nameTag, valueTag, rng, old(drawn)))
    {
      var name :- FetchText(p, nameTag);
      var selector := RandomSelector();
      var keep :- SelectElement(p, selector);
      if keep {
        selector := RandomSelector();
        var value :- ProcessValues(p, name, valueTag, selector);
        r := Ok(Included(name, value));
      } else {
        r := Ok(Excluded);
      }
    }

    /** fetch_property_name_value: process properties in turn until one is included under the wanted name. */
    method FetchPropertyNameValue(parent: Element, target: string) returns (r: Res<Option<string>>)
      modifies this`drawn
      ensures Tracks(r, drawn, NamedValueFrom(FindAll(parent, "Property"), 0, target, rng, old(drawn)))
    {
      var props := FindAll(parent, "Property");
      var i := 0;
      while i < |props|
        invariant 0 <= i <= |props|
        invariant NamedValueFrom(props, 0, target, rng, old(drawn)) == NamedValueFrom(props, i, target, rng, drawn)
      {
        var before := drawn;
        var choice := ProcessProperty(props[i], "PropertyName", "Value");
        if choice.Err? {
          assert NamedValueFrom(props, i, target, rng, before) == Err(choice.error);
          return Err(choice.error);
        }
        var c := choice.value;
        if c.NamedAs(target) {
          return Ok(c.value);
        }
        i := i + 1;
      }
      return Ok(None);
    }

    /** The loop shared by fetch_property_headings and fetch_property_values: one process_property per Property child. */
    method ProcessProperties(parent: Element) returns (r: Res<seq<Choice>>)
      modifies this`drawn
      ensures Tracks(r, drawn, PropertyChoices(parent, rng, old(drawn)))
    {
      var props := FindAll(parent, "Property");
      var choices := [];
      var i := 0;
      PrependNothing(ChoicesFrom(props, 0, rng, drawn));
      while i < |props|
        invariant 0 <= i <= |props|
        invariant ChoicesFrom(props, 0, rng, old(drawn)) == Prepend(choices, ChoicesFrom(props, i, rng, drawn))
      {
        var before := drawn;
        var choice := ProcessProperty(props[i], "PropertyName", "Value");
        if choice.Err? {
          assert ChoicesFrom(props, i, rng, before) == Err(choice.error);
          return Err(choice.error);
        }
        var c := choice.value;
        assert ChoicesFrom(props, i, rng, before) == Prepend([c], ChoicesFrom(props, i + 1, rng, drawn));
        PrependTwice(choices, [c], ChoicesFrom(props, i + 1, rng, drawn));
        choices := choices + [c];
        i := i + 1;
      }
      assert choices + [] == choices;
      r := Ok(choices);
    }

    /** fetch_property_headings: the property names, None for a property not selected. */
    method FetchPropertyHeadings(parent: Element) returns (r: Res<seq<Option<string>>>)
      modifies this`drawn
      ensures Tracks(r, drawn, HeadingsOf(PropertyChoices(parent, rng, old(drawn))))
    {
      var cs :- ProcessProperties(parent);
      r := Ok(Names(cs));
    }

    /** fetch_property_values: the chosen values, None for a property not selected. */
    method FetchPropertyValues(parent: Element) returns (r: Res<seq<Option<string>>>)
      modifies this`drawn
      ensures Tracks(r, drawn, ValuesOf(PropertyChoices(parent, rng, old(drawn))))
    {
      var cs :- ProcessProperties(parent);
      r := Ok(Values(cs));
    }

    /** account_number */
    method AccountNumber() returns (r: Res<string>)
      modifies this`drawn
      ensures Tracks(r, drawn, AccountNumberOf(root, rng, old(drawn)))
    {
      var policy :- Find(root, "Policy");
      var found :- FetchPropertyNameValue(policy, "AccountNumber");
      if found.None? {
        return Err(AccountNumberMissing);
      }
      r := Ok(found.value);
    }

    /** submission_date, `today` standing for current_date() */
    method SubmissionDate(today: string) returns (r: Res<string>)
      modifies this`drawn
      ensures Tracks(r, drawn, SubmissionDateOf(root, today, rng, old(drawn)))
    {
      var policy :- Find(root, "Policy");
      var found :- FetchPropertyNameValue(policy, "SubmissionDate");
      r := Ok(if found.None? then today else found.value);
    }

    /** fetch_question_code_and_answer */
    method FetchQuestionCodeAndAnswer(question: Element) returns (r: Res<(Option<string>, Option<string>)>)
      modifies this`drawn
      ensures Tracks(r, drawn, QuestionAnswer(question, rng, old(drawn)))
    {
      var code :- FetchText(question, "QuestionCode");
      var selector := RandomSelector();
      var answer :- ProcessValues(question, Some("Question"), "Answer", selector);
      r := Ok((code, answer));
    }

    /** fetch_coverables: the selected Coverable children of Product. */
    method FetchCoverables() returns (r: Res<seq<Element>>)
      modifies this`drawn
      ensures Find(root, "Product").Err? ==> r == Err(Find(root, "Product").error) && drawn == old(drawn)
      ensures Find(root, "Product").Ok? ==>
        Tracks(r, drawn, SelectedFrom(FindAll(Find(root, "Product").value, "Coverable"), 0, rng, old(drawn)))
    {
      var product :- Find(root, "Product");
      r := FetchSelectedElements(product, "Coverable");
    }

    /** fetch_coverages: the selected Coverage children of a coverable. */
    method FetchCoverages(coverable: Element) returns (r: Res<seq<Element>>)
      modifies this`drawn
      ensures Tracks(r, drawn, SelectedFrom(FindAll(coverable, "Coverage"), 0, rng, old(drawn)))
    {
      r := FetchSelectedElements(coverable, "Coverage");
    }

    /** fetch_coverage_term_value */
    method FetchCoverageTermValue(term: Element) returns (r: Res<Option<string>>)
      modifies this`drawn
      ensures Tracks(r, drawn, TermValue(term, rng, old(drawn)))
    {
      var selector := RandomSelector();
      r := ProcessValues(term, Some("CoverageTerm"), "Term", selector);
    }
  }

  /** One step of the fixtures loop: a parsed element is kept, a malformed one ends the scan. */
  lemma ScanFixturesStep(es: seq<Element>, i: nat)
    requires i < |es|
    ensures ParseFixture(es[i]).Ok? ==>
      ScanFixtures(es, i) == ([ParseFixture(es[i]).value] + ScanFixtures(es, i + 1).0, ScanFixtures(es, i + 1).1)
    ensures ParseFixture(es[i]).Err? ==> ScanFixtures(es, i) == ([], Some(ParseFixture(es[i]).error))
  {
  }

  /** With the Fixture elements in hand, the first access is the scan of those elements. */
  lemma FixturesFromElements(root: Element, es: seq<Element>)
    requires FixtureElements(root) == Ok(es)
    ensures LoadedFixtures(root) == ScanFixtures(es, 0).0
    ensures ScanFixtures(es, 0).1.Some? ==> FixturesOf(root) == Err(ScanFixtures(es, 0).1.value)
    ensures ScanFixtures(es, 0).1.None? && ScanFixtures(es, 0).0 == [] ==> FixturesOf(root) == Err(NoFixtures)
    ensures ScanFixtures(es, 0).1.None? && ScanFixtures(es, 0).0 != [] ==> FixturesOf(root) == Ok(ScanFixtures(es, 0).0)
  {
  }

  /** The loop of fetch_fixture: the class of the first fixture declared for the role. */
  method FindFixture(fs: seq<Fixture>, role: string) returns (r: Option<string>)
    ensures r == FixtureFor(fs, role)
  {
    var i := 0;
    while i < |fs|
      invariant 0 <= i <= |fs|
      invariant forall j | 0 <= j < i :: fs[j].role != Some(role)
    {
      if fs[i].role == Some(role) {
        FixtureForFirst(fs, i, role);
        return fs[i].fixtureClass;
      }
      i := i + 1;
    }
    FixtureForMeaning(fs, role);
    return None;
  }

  /** The loop of fetch_fixture stops at the first match, which is what FixtureFor names. */
  lemma {:induction false} FixtureForFirst(fs: seq<Fixture>, i: nat, role: string)
    requires i < |fs| && fs[i].role == Some(role)
    requires forall j | 0 <= j < i :: fs[j].role != Some(role)
    ensures FixtureFor(fs, role) == fs[i].fixtureClass
    decreases i
  {
    if i > 0 {
      assert fs[1..][i - 1] == fs[i];
      FixtureForFirst(fs[1..], i - 1, role);
    }
  }
}
