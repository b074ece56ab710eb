/**
 * The model builder: turns a decoded challenge document into the records the
 * verifier works on. The document is taken already decoded into typed
 * elements; attribute values arrive as integers or strings of the right kind.
 */
module Model {
  import opened Collections
  import opened Text
  import opened Types

  /** `<string id="...">text</string>` */
  datatype DocString = DocString(id: string, text: string)

  /** `<option name="..." description="..."/>` */
  datatype DocOption = DocOption(name: string, description: string)

  /** `<objective-number>`: the range attributes and the optional default. */
  datatype DocNumber = DocNumber(id: string, description: string, min: int, max: int, default: Option<int>)

  /** `<objective-yesno>` */
  datatype DocYesNo = DocYesNo(id: string, description: string, default: Option<string>)

  /** `<objective-enum>` with its `<option>` children in document order. */
  datatype DocEnum = DocEnum(id: string, description: string, options: seq<DocOption>, default: Option<string>)

  /** An objective element of any of the three kinds. */
  datatype DocObjective =
    | NumberElement(number: DocNumber)
    | YesNoElement(yesno: DocYesNo)
    | EnumElement(enumeration: DocEnum)
  {
    function Id(): string {
      match this
      case NumberElement(n) => n.id
      case YesNoElement(y) => y.id
      case EnumElement(e) => e.id
    }

    function Description(): string {
      match this
      case NumberElement(n) => n.description
      case YesNoElement(y) => y.description
      case EnumElement(e) => e.description
    }
  }

  /** `<index objective="..."/>` */
  datatype DocIndex = DocIndex(objective: string)

  /** `<index-ref value="..."/>` */
  datatype DocIndexRef = DocIndexRef(value: string)

  /** `<points amount="..."/>` */
  datatype DocPoints = DocPoints(amount: int)

  /** `<error message="..."/>` */
  datatype DocError = DocError(message: string)

  /** `<case>`: its index-refs in order, and the optional points and error children. */
  datatype DocCase = DocCase(indexRefs: seq<DocIndexRef>, points: Option<DocPoints>, error: Option<DocError>)

  /** `<score>`: its `<indexes>` and `<cases>` children. */
  datatype DocScore = DocScore(indexes: seq<DocIndex>, cases: seq<DocCase>)

  /** `<mission>`: the objective elements of each kind, in document order, and the scores. */
  datatype DocMission = DocMission(
    name: string,
    description: string,
    numbers: seq<DocNumber>,
    yesnos: seq<DocYesNo>,
    enums: seq<DocEnum>,
    scores: seq<DocScore>)

  /** A loaded string: its trimmed text and whether anything refers to it yet. */
  datatype LoadedString = LoadedString(value: string, used: bool)

  // ---------------------------------------------------------------------
  // Strings

  function StringId(s: DocString): string {
    s.id
  }

  function LoadedOf(s: DocString): LoadedString {
    LoadedString(Trim(s.text), false)
  }

  /** The string table: `strings[id] = {value: trimmed text, used: false}` for every string in order. */
  function StringTable(strings: seq<DocString>): Dict<LoadedString> {
    PutAll(EmptyDict(), strings, StringId, LoadedOf)
  }

  /**
   * `loadStringList`: one entry per distinct string id, holding the trimmed
   * text of the LAST definition of that id, and not yet used.
   */
  method LoadStringList(strings: seq<DocString>) returns (table: Dict<LoadedString>)
    ensures table == StringTable(strings)
    ensures table.Valid()
    ensures forall id :: id in table.entries <==> exists i :: 0 <= i < |strings| && strings[i].id == id
    ensures forall i :: LastWithKey(strings, StringId, i) ==> table.entries[strings[i].id] == LoadedString(Trim(strings[i].text), false)
    ensures forall id :: id in table.entries ==> !table.entries[id].used
  {
    table := EmptyDict();
    for i := 0 to |strings|
      invariant table == StringTable(strings[..i])
    {
      assert strings[..i + 1][..i] == strings[..i];
      table := table.Put(strings[i].id, LoadedString(Trim(strings[i].text), false));
    }
    assert strings[..|strings|] == strings;
    PutAllLastWins(strings, StringId, LoadedOf);
  }

  // ---------------------------------------------------------------------
  // Objectives

  function OptionName(o: DocOption): string {
    o.name
  }

  function OptionOf(o: DocOption): OptionModel {
    OptionModel(o.name, o.description)
  }

  /** The options map of an enumeration: `options[name] = {name, description}` for every option in order. */
  function OptionsOf(options: seq<DocOption>): Dict<OptionModel> {
    PutAll(EmptyDict(), options, OptionName, OptionOf)
  }

  function ObjectiveOf(o: DocObjective): Objective {
    match o
    case NumberElement(n) => Objective(n.id, n.description, false, Number(n.min, n.max, n.default))
    case YesNoElement(y) => Objective(y.id, y.description, false, YesNo(y.default))
    case EnumElement(e) => Objective(e.id, e.description, false, Enum(OptionsOf(e.options), e.default))
  }

  /**
   * `createObjectiveModel`: the id and description come from the element and
   * the objective starts unused; the kind is the element's kind, with the
   * range for a number and the options keyed by name for an enumeration; a
   * default is present exactly when the element has one.
   */
  method CreateObjectiveModel(o: DocObjective) returns (r: Objective)
    ensures r == ObjectiveOf(o)
    ensures r.id == o.Id() && r.description == o.Description() && !r.used
    ensures r.kind.Number? <==> o.NumberElement?
    ensures r.kind.YesNo? <==> o.YesNoElement?
    ensures r.kind.Enum? <==> o.EnumElement?
    ensures o.NumberElement? ==>
      r.kind.min == o.number.min && r.kind.max == o.number.max && r.kind.numberDefault == o.number.default
    ensures o.YesNoElement? ==> r.kind.default == o.yesno.default
    ensures o.EnumElement? ==> r.kind.default == o.enumeration.default
    ensures o.EnumElement? ==> r.kind.options.Valid()
    ensures o.EnumElement? ==> forall name :: name in r.kind.options.entries <==>
      exists i :: 0 <= i < |o.enumeration.options| && o.enumeration.options[i].name == name
    ensures o.EnumElement? ==> forall name :: name in r.kind.options.entries ==> r.kind.options.entries[name].name == name
    ensures o.EnumElement? ==> forall i :: LastWithKey(o.enumeration.options, OptionName, i) ==>
      r.kind.options.entries[o.enumeration.options[i].name].description == o.enumeration.options[i].description
  {
    match o
    case NumberElement(n) =>
      r := Objective(n.id, n.description, false, Number(n.min, n.max, n.default));
    case YesNoElement(y) =>
      r := Objective(y.id, y.description, false, YesNo(y.default));
    case EnumElement(e) =>
      var options := EmptyDict();
      for i := 0 to |e.options|
        invariant options == OptionsOf(e.options[..i])
      {
        assert e.options[..i + 1][..i] == e.options[..i];
        options := options.Put(e.options[i].name, OptionModel(e.options[i].name, e.options[i].description));
      }
      assert e.options[..|e.options|] == e.options;
      OptionsKeyedByName(e.options);
      r := Objective(e.id, e.description, false, Enum(options, e.default));
  }

  /** Every option is stored under its own name, and the last option with a name gives its description. */
  lemma OptionsKeyedByName(options: seq<DocOption>)
    ensures OptionsOf(options).Valid()
    ensures forall name :: name in OptionsOf(options).entries <==> exists i :: 0 <= i < |options| && options[i].name == name
    ensures forall name :: name in OptionsOf(options).entries ==> OptionsOf(options).entries[name].name == name
    ensures forall i :: LastWithKey(options, OptionName, i) ==> OptionsOf(options).entries[options[i].name] == OptionOf(options[i])
  {
    PutAllLastWins(options, OptionName, OptionOf);
    forall name | name in OptionsOf(options).entries
      ensures OptionsOf(options).entries[name].name == name
    {
      var i :| LastWithKey(options, OptionName, i) && OptionName(options[i]) == name;
    }
  }

  // ---------------------------------------------------------------------
  // Scores

  function CaseOf(c: DocCase): Case {
    Case(
      seq(|c.indexRefs|, k requires 0 <= k < |c.indexRefs| => c.indexRefs[k].value),
      if c.points.Some? then Some(c.points.value.amount) else None,
      if c.error.Some? then Some(c.error.value.message) else None)
  }

  function ScoreOf(s: DocScore): Score {
    Score(
      seq(|s.indexes|, k requires 0 <= k < |s.indexes| => s.indexes[k].objective),
      seq(|s.cases|, k requires 0 <= k < |s.cases| => CaseOf(s.cases[k])))
  }

  /** The values of a case's index-refs, in order. */
  method CaseIndexRefs(c: DocCase) returns (refs: seq<string>)
    ensures |refs| == |c.indexRefs|
    ensures forall k :: 0 <= k < |refs| ==> refs[k] == c.indexRefs[k].value
  {
    refs := [];
    for k := 0 to |c.indexRefs|
      invariant |refs| == k
      invariant forall p :: 0 <= p < k ==> refs[p] == c.indexRefs[p].value
    {
      refs := refs + [c.indexRefs[k].value];
    }
  }

  /**
   * `createScoreModel`: the index objectives in document order, and one case
   * per case element in order, each with its index-ref values in order and
   * with points and an error exactly when the element has them.
   */
  method CreateScoreModel(s: DocScore) returns (r: Score)
    ensures r == ScoreOf(s)
    ensures |r.indexes| == |s.indexes|
    ensures forall k :: 0 <= k < |s.indexes| ==> r.indexes[k] == s.indexes[k].objective
    ensures |r.cases| == |s.cases|
    ensures forall k :: 0 <= k < |s.cases| ==>
      |r.cases[k].indexRefs| == |s.cases[k].indexRefs| &&
      (forall p :: 0 <= p < |s.cases[k].indexRefs| ==> r.cases[k].indexRefs[p] == s.cases[k].indexRefs[p].value)
    ensures forall k :: 0 <= k < |s.cases| ==>
      (r.cases[k].points.Some? <==> s.cases[k].points.Some?) &&
      (r.cases[k].points.Some? ==> r.cases[k].points.value == s.cases[k].points.value.amount)
    ensures forall k :: 0 <= k < |s.cases| ==>
      (r.cases[k].error.Some? <==> s.cases[k].error.Some?) &&
      (r.cases[k].error.Some? ==> r.cases[k].error.value == s.cases[k].error.value.message)
  {
    var indexes := [];
    for k := 0 to |s.indexes|
      invariant indexes == ScoreOf(s).indexes[..k]
    {
      indexes := indexes + [s.indexes[k].objective];
    }
    var cases := [];
    for k := 0 to |s.cases|
      invariant cases == ScoreOf(s).cases[..k]
    {
      var c := s.cases[k];
      var refs := CaseIndexRefs(c);
      var points := None;
      if c.points.Some? {
        points := Some(c.points.value.amount);
      }
      var error := None;
      if c.error.Some? {
        error := Some(c.error.value.message);
      }
      assert refs == CaseOf(c).indexRefs;
      cases := cases + [Case(refs, points, error)];
    }
    r := Score(indexes, cases);
  }

  // ---------------------------------------------------------------------
  // Missions

  /** The objective elements of a mission in the order they are modelled: numbers, then yes/no, then enumerations. */
  function Declared(m: DocMission): seq<DocObjective> {
    seq(|m.numbers|, i requires 0 <= i < |m.numbers| => NumberElement(m.numbers[i]))
    + seq(|m.yesnos|, i requires 0 <= i < |m.yesnos| => YesNoElement(m.yesnos[i]))
    + seq(|m.enums|, i requires 0 <= i < |m.enums| => EnumElement(m.enums[i]))
  }

  function ObjectiveKey(o: DocObjective): string {
    o.Id()
  }

  /** The objectives map: `objectives[id] = createObjectiveModel(...)` over the declared objectives in order. */
  function ObjectivesOf(m: DocMission): Dict<Objective> {
    PutAll(EmptyDict(), Declared(m), ObjectiveKey, ObjectiveOf)
  }

  function ScoresOf(m: DocMission): seq<Score> {
    seq(|m.scores|, i requires 0 <= i < |m.scores| => ScoreOf(m.scores[i]))
  }

  /** A mission model; the score check marks objectives used, so the objectives map is mutable. */
  class MissionModel {
    const name: string
    const description: string
    var objectives: Dict<Objective>
    const scores: seq<Score>

    constructor (name: string, description: string, objectives: Dict<Objective>, scores: seq<Score>)
      ensures this.name == name && this.description == description
      ensures this.objectives == objectives && this.scores == scores
    {
      this.name := name;
      this.description := description;
      this.objectives := objectives;
      this.scores := scores;
    }
  }

  /** `objectives` after assigning the objective model of every element of `elements`. */
  method AddObjectives(objectives: Dict<Objective>, elements: seq<DocObjective>) returns (r: Dict<Objective>)
    ensures r == PutAll(objectives, elements, ObjectiveKey, ObjectiveOf)
  {
    r := objectives;
    for i := 0 to |elements|
      invariant r == PutAll(objectives, elements[..i], ObjectiveKey, ObjectiveOf)
    {
      assert elements[..i + 1][..i] == elements[..i];
      var o := CreateObjectiveModel(elements[i]);
      r := r.Put(elements[i].Id(), o);
    }
    assert elements[..|elements|] == elements;
  }

  /** Filling a dictionary with `a + b` is filling it with `a`, then with `b`. */
  lemma {:induction false} PutAllConcat<T, V>(d: Dict<V>, a: seq<T>, b: seq<T>, key: T -> string, value: T -> V)
    ensures PutAll(d, a + b, key, value) == PutAll(PutAll(d, a, key, value), b, key, value)
  {
    if b != [] {
      var n := |b| - 1;
      PutAllConcat(d, a, b[..n], key, value);
      assert (a + b)[..|a + b| - 1] == a + b[..n];
    } else {
      assert a + b == a;
    }
  }

  /** The objective loops of `createMissionModel`: numbers, then yes/no, then enumerations. */
  method MissionObjectiveModels(m: DocMission) returns (objectives: Dict<Objective>)
    ensures objectives == ObjectivesOf(m)
  {
    var numbers := seq(|m.numbers|, i requires 0 <= i < |m.numbers| => NumberElement(m.numbers[i]));
    var yesnos := seq(|m.yesnos|, i requires 0 <= i < |m.yesnos| => YesNoElement(m.yesnos[i]));
    var enums := seq(|m.enums|, i requires 0 <= i < |m.enums| => EnumElement(m.enums[i]));
    assert Declared(m) == (numbers + yesnos) + enums;
    objectives := AddObjectives(EmptyDict(), numbers);
    objectives := AddObjectives(objectives, yesnos);
    objectives := AddObjectives(objectives, enums);
    PutAllConcat(EmptyDict(), numbers, yesnos, ObjectiveKey, ObjectiveOf);
    PutAllConcat(EmptyDict(), numbers + yesnos, enums, ObjectiveKey, ObjectiveOf);
  }

  /**
   * `createMissionModel`: the name and description of the mission, the
   * objectives keyed by id over the number, then yes/no, then enumeration
   * elements, and one score model per score element in order.
   */
  method CreateMissionModel(m: DocMission) returns (model: MissionModel)
    ensures fresh(model)
    ensures model.name == m.name && model.description == m.description
    ensures model.objectives == ObjectivesOf(m)
    ensures model.scores == ScoresOf(m)
  {
    var objectives := MissionObjectiveModels(m);
    var scores := [];
    for i := 0 to |m.scores|
      invariant scores == ScoresOf(m)[..i]
    {
      var s := CreateScoreModel(m.scores[i]);
      scores := scores + [s];
    }
    model := new MissionModel(m.name, m.description, objectives, scores);
  }

  /**
   * The objectives of a mission: one per distinct id among its objective
   * elements, none used yet, each the model of the LAST element with that id
   * in the order numbers, yes/no, enumerations, so a later element with a
   * duplicate id replaces an earlier one even across kinds.
   */
  lemma MissionObjectives(m: DocMission)
    ensures ObjectivesOf(m).Valid()
    ensures forall id :: id in ObjectivesOf(m).entries <==> exists i :: 0 <= i < |Declared(m)| && Declared(m)[i].Id() == id
    ensures forall i :: LastWithKey(Declared(m), ObjectiveKey, i) ==> ObjectivesOf(m).entries[Declared(m)[i].Id()] == ObjectiveOf(Declared(m)[i])
    ensures forall id :: id in ObjectivesOf(m).entries ==> ObjectivesOf(m).entries[id].id == id && !ObjectivesOf(m).entries[id].used
  {
    PutAllLastWins(Declared(m), ObjectiveKey, ObjectiveOf);
    forall id | id in ObjectivesOf(m).entries
      ensures ObjectivesOf(m).entries[id].id == id && !ObjectivesOf(m).entries[id].used
    {
      var i :| LastWithKey(Declared(m), ObjectiveKey, i) && ObjectiveKey(Declared(m)[i]) == id;
    }
  }

  /** An enumeration element placed after a number element with the same id replaces it. */
  lemma LaterKindReplaces(m: DocMission, p: nat, q: nat)
    requires p < |m.numbers| && q < |m.enums| && m.numbers[p].id == m.enums[q].id
    requires forall j :: q < j < |m.enums| ==> m.enums[j].id != m.enums[q].id
    ensures m.enums[q].id in ObjectivesOf(m).entries
    ensures ObjectivesOf(m).entries[m.enums[q].id] == ObjectiveOf(EnumElement(m.enums[q]))
  {
    var d := Declared(m);
    var i := |m.numbers| + |m.yesnos| + q;
    assert d[i] == EnumElement(m.enums[q]);
    forall j | i < j < |d| ensures ObjectiveKey(d[j]) != ObjectiveKey(d[i]) {
      assert d[j] == EnumElement(m.enums[j - |m.numbers| - |m.yesnos|]);
    }
    assert LastWithKey(d, ObjectiveKey, i);
    MissionObjectives(m);
  }
}
