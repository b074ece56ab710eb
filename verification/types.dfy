/**
 * The typed model the validator works on: objectives, score tables with their
 * cases, per-language string tables, and the diagnostics it reports.
 */
module Types {
  import opened Collections

  /** One option of an enumeration objective. */
  datatype OptionModel = OptionModel(name: string, description: string)

  /**
   * The three kinds of objective with the fields each kind carries. The
   * default value is optional for every kind: an integer for a number
   * objective, a value name for the two others.
   */
  datatype Kind =
    | Number(min: int, max: int, numberDefault: Option<int>)
    | YesNo(default: Option<string>)
    | Enum(options: Dict<OptionModel>, default: Option<string>)

  /** `description` is the id of a string; `used` is set once a score indexes it. */
  datatype Objective = Objective(id: string, description: string, used: bool, kind: Kind)

  /** One row of a score table: a value per index, and optionally points and an error message id. */
  datatype Case = Case(indexRefs: seq<string>, points: Option<int>, error: Option<string>)

  /** A score table: the objective ids it is indexed by, in order, and its rows. */
  datatype Score = Score(indexes: seq<string>, cases: seq<Case>)

  /** What the string checks read of one string definition: its usage mark and how often it was defined. */
  datatype StringEntry = StringEntry(used: bool, count: nat)

  /** The strings of one language. */
  datatype StringList = StringList(language: string, strings: Dict<StringEntry>)

  /** The field whose string id `checkString` looks up, named in its message. */
  datatype Field = NameField | DescriptionField | ErrorField

  /** One reported error; the log's length is the error count. */
  datatype Diagnostic =
    | UnknownString(field: Field, key: string, language: string)
    | DefaultOutOfRange(value: string, objective: string)
    | IndexNotFound(index: string)
    | IndexUsedTwice(objective: string)
    | IndexRefCountMismatch
    | ValueOutOfRange(value: string, objective: string)
    | NoCaseFound(indexes: seq<string>, values: seq<string>)
    | CasesFound(count: nat, indexes: seq<string>, values: seq<string>)
    | ObjectiveNotUsed(objective: string)
    | LanguageTwice(language: string)
    | StringTwice(id: string, language: string)
    | StringUnused(id: string, language: string)
    | StaticStringMissing(id: string, language: string)
    | TooManyPercentageMissions
}
