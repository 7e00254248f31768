/**
 * The ways a suite-generation run stops. The Python program raises
 * SuiteDreamsException for most of them; the rest are `assert` statements that
 * the content of the product specification can trip. Every one is fatal.
 */
module Errors {
  import opened Wrappers

  datatype SuiteError =
      // XmlHandler.fetch_element: no child with the tag
    | ElementNotFound(tag: string, parent: string)
      // SchemaHandler.fetch_weight: the weight attribute is not an integer
    | IllegalWeight(tag: string, value: string)
      // SchemaHandler.fetch_weight: the weight is outside [0, 100]
    | WeightOutOfRange(tag: string, value: string)
      // SchemaHandler.process_values: the selector exceeds the sum of the weights
    | NoValueSelected(name: Option<string>, valueTag: string)
      // an element without text where a string is needed: Python's
      // TypeError from int(None) or from joining None to a string
    | TextMissing(tag: string)
      // SchemaHandler.count
    | CountNotNumber(text: string)
    | NegativeCount(text: string)
      // SchemaHandler.seed
    | SeedNotInteger(text: string)
      // SchemaHandler.parse: the root element is not TestSuite
    | RootNotTestSuite(tag: string)
      // assert: the Fixtures element holds no Fixture
    | NoFixtures
      // assert: no fixture class is declared for a table's role
    | FixtureMissing(role: string)
      // assert: the Policy yields no AccountNumber value (none selected, or its value has no text)
    | AccountNumberMissing
      // assert: there is no coverable named HOPDwelling
    | DwellingMissing
      // assert: no coverable was selected
    | NoCoverables
      // assert: no coverage of the named coverable was selected
    | NoCoverages(coverable: string)
      // assert: a coverable name or a coverage code is None or empty
    | EmptyCoverableName
    | EmptyCoverageCode
      // assert: the value chosen for a coverage term is None or empty
    | EmptyTermValue(termCode: Option<string>)

  type Res<T> = Result<T, SuiteError>
}
