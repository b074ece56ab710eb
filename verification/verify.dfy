/**
 * The verifier: the checks run over every mission and over the string lists
 * of a challenge. Each check appends its diagnostics to a log, whose length
 * is the error count, and marks the strings and objectives it looks up as
 * used. Each method is specified by a function of the state it starts from:
 * the diagnostics it appends and the marks it leaves.
 */
module Verify {
  import opened Collections
  import opened Text
  import opened Types
  import opened VerifyUtil
  import opened Model

  /** The string ids every language must define, and which need not be referred to. */
  const StaticStrings: seq<string> := ["yes", "no"]

  /** The error log: every reported error, in order; its length is the error count. */
  class Diagnostics {
    var log: seq<Diagnostic>

    constructor ()
      ensures log == []
    {
      log := [];
    }

    /** Reports one error. */
    method Error(d: Diagnostic)
      modifies this
      ensures log == old(log) + [d]
    {
      log := log + [d];
    }
  }

  /** The part of a challenge the checks read and update: its string lists, one per language. */
  class ChallengeModel {
    var stringLists: seq<StringList>

    constructor (stringLists: seq<StringList>)
      ensures this.stringLists == stringLists
    {
      this.stringLists := stringLists;
    }
  }

  // ---------------------------------------------------------------------
  // String usage

  /** The entries of `list` whose id is in `keys` marked used; nothing else changes. */
  function MarkList(list: StringList, keys: seq<string>): StringList {
    StringList(list.language, Dict(list.strings.keys,
      map id | id in list.strings.entries :: StringEntry(list.strings.entries[id].used || id in keys, list.strings.entries[id].count)))
  }

  /** Every string list with the strings of `keys` marked used. */
  function MarkKeys(lists: seq<StringList>, keys: seq<string>): seq<StringList> {
    seq(|lists|, i requires 0 <= i < |lists| => MarkList(lists[i], keys))
  }

  /** One `UnknownString` per list, in order, that does not define `key`. */
  function UnknownStringDiags(lists: seq<StringList>, field: Field, key: string): seq<Diagnostic> {
    if lists == [] then []
    else
      var n := |lists| - 1;
      UnknownStringDiags(lists[..n], field, key)
      + (if key in lists[n].strings.entries then [] else [UnknownString(field, key, lists[n].language)])
  }

  /** Marking strings used one batch after another is marking them all at once. */
  lemma MarkKeysTwice(lists: seq<StringList>, a: seq<string>, b: seq<string>)
    ensures MarkKeys(MarkKeys(lists, a), b) == MarkKeys(lists, a + b)
  {
    forall i | 0 <= i < |lists| ensures MarkKeys(MarkKeys(lists, a), b)[i] == MarkKeys(lists, a + b)[i] {
      var l := lists[i];
      var l2 := MarkList(MarkList(l, a), b);
      assert l2.strings.entries == MarkList(l, a + b).strings.entries;
    }
  }

  /** Marking strings used changes no list's language or set of defined ids, so no lookup result. */
  lemma {:induction false} UnknownStringDiagsMarked(lists: seq<StringList>, keys: seq<string>, field: Field, key: string)
    ensures UnknownStringDiags(MarkKeys(lists, keys), field, key) == UnknownStringDiags(lists, field, key)
  {
    if lists != [] {
      var n := |lists| - 1;
      UnknownStringDiagsMarked(lists[..n], keys, field, key);
      assert MarkKeys(lists, keys)[..n] == MarkKeys(lists[..n], keys);
    }
  }

  /** Marking one key: the entry of that key, when the list has one, is set used; the list is otherwise unchanged. */
  lemma MarkListOne(list: StringList, key: string)
    ensures key !in list.strings.entries ==> MarkList(list, [key]) == list
    ensures key in list.strings.entries ==>
      MarkList(list, [key]) == StringList(list.language, list.strings.Put(key, StringEntry(true, list.strings.entries[key].count)))
  {
    if key !in list.strings.entries {
      assert MarkList(list, [key]).strings.entries == list.strings.entries;
    } else {
      assert MarkList(list, [key]).strings.entries == list.strings.Put(key, StringEntry(true, list.strings.entries[key].count)).entries;
    }
  }

  /** Marking one key in every list changes, in each list, that key's `used` flag and nothing else. */
  lemma MarkKeysOne(lists: seq<StringList>, key: string)
    ensures |MarkKeys(lists, [key])| == |lists|
    ensures forall i :: 0 <= i < |lists| ==>
      var before, after := lists[i], MarkKeys(lists, [key])[i];
      after.language == before.language && after.strings.keys == before.strings.keys
      && (forall id :: id in after.strings.entries <==> id in before.strings.entries)
      && (forall id :: id in after.strings.entries ==>
            after.strings.entries[id] == if id == key then StringEntry(true, before.strings.entries[id].count) else before.strings.entries[id])
  {
  }

  /**
   * `checkString`: for every string list in order, reports the key as unknown
   * for that language when the list lacks it, and otherwise marks that one
   * entry used; no other entry, language or id order changes.
   */
  method CheckString(field: Field, key: string, challenge: ChallengeModel, out: Diagnostics)
    modifies challenge, out
    ensures challenge.stringLists == MarkKeys(old(challenge.stringLists), [key])
    ensures out.log == old(out.log) + UnknownStringDiags(old(challenge.stringLists), field, key)
    ensures |challenge.stringLists| == |old(challenge.stringLists)|
    ensures forall i :: 0 <= i < |challenge.stringLists| ==>
      var before, after := old(challenge.stringLists[i]), challenge.stringLists[i];
      after.language == before.language && after.strings.keys == before.strings.keys
      && (forall id :: id in after.strings.entries <==> id in before.strings.entries)
      && (forall id :: id in after.strings.entries ==>
            after.strings.entries[id] == if id == key then StringEntry(true, before.strings.entries[id].count) else before.strings.entries[id])
  {
    ghost var lists := challenge.stringLists;
    ghost var log := out.log;
    var i := 0;
    while i < |challenge.stringLists|
      invariant 0 <= i <= |lists| == |challenge.stringLists|
      invariant forall k :: 0 <= k < i ==> challenge.stringLists[k] == MarkList(lists[k], [key])
      invariant forall k :: i <= k < |lists| ==> challenge.stringLists[k] == lists[k]
      invariant out.log == log + UnknownStringDiags(lists[..i], field, key)
    {
      CheckStringAt(field, key, challenge, out, i, lists, log);
      i := i + 1;
    }
    assert lists[..i] == lists;
    assert challenge.stringLists == MarkKeys(lists, [key]);
    MarkKeysOne(lists, key);
  }

  /** One turn of the loop of `checkString`, stated as the loop's invariant before and after list `i`. */
  method CheckStringAt(field: Field, key: string, challenge: ChallengeModel, out: Diagnostics, i: nat,
                       ghost lists: seq<StringList>, ghost log: seq<Diagnostic>)
    requires i < |lists| == |challenge.stringLists|
    requires forall k :: 0 <= k < i ==> challenge.stringLists[k] == MarkList(lists[k], [key])
    requires forall k :: i <= k < |lists| ==> challenge.stringLists[k] == lists[k]
    requires out.log == log + UnknownStringDiags(lists[..i], field, key)
    modifies challenge, out
    ensures |challenge.stringLists| == |lists|
    ensures forall k :: 0 <= k < i + 1 ==> challenge.stringLists[k] == MarkList(lists[k], [key])
    ensures forall k :: i + 1 <= k < |lists| ==> challenge.stringLists[k] == lists[k]
    ensures out.log == log + UnknownStringDiags(lists[..i + 1], field, key)
  {
    assert lists[..i + 1][..i] == lists[..i];
    var list := challenge.stringLists[i];
    MarkListOne(list, key);
    if key !in list.strings.entries {
      out.Error(UnknownString(field, key, list.language));
      AppendAssoc(log, UnknownStringDiags(lists[..i], field, key), [UnknownString(field, key, list.language)]);
    } else {
      var entry := list.strings.entries[key];
      challenge.stringLists := challenge.stringLists[i := StringList(list.language, list.strings.Put(key, StringEntry(true, entry.count)))];
    }
  }

  // ---------------------------------------------------------------------
  // Objectives

  /** The objectives with those whose id is in `ids` marked used; nothing else changes. */
  function MarkObjectives(objs: Dict<Objective>, ids: seq<string>): Dict<Objective> {
    Dict(objs.keys, map id | id in objs.entries :: objs.entries[id].(used := objs.entries[id].used || id in ids))
  }

  /** The legal values of every objective, by id. */
  function Domains(objs: Dict<Objective>): map<string, seq<string>> {
    map id | id in objs.entries :: Domain(objs.entries[id])
  }

  /** Marking objectives used one batch after another is marking them all at once. */
  lemma MarkObjectivesTwice(objs: Dict<Objective>, a: seq<string>, b: seq<string>)
    ensures MarkObjectives(MarkObjectives(objs, a), b) == MarkObjectives(objs, a + b)
  {
    assert MarkObjectives(MarkObjectives(objs, a), b).entries == MarkObjectives(objs, a + b).entries;
  }

  /** Marking objectives used changes no objective's legal values. */
  lemma DomainsMarked(objs: Dict<Objective>, ids: seq<string>)
    ensures Domains(MarkObjectives(objs, ids)) == Domains(objs)
  {
    var marked := MarkObjectives(objs, ids);
    forall id | id in objs.entries ensures Domain(marked.entries[id]) == Domain(objs.entries[id]) {
      assert marked.entries[id].kind == objs.entries[id].kind;
    }
  }

  /**
   * Whether the default value of an objective, when it has one, is accepted:
   * within `[min, max]` for a number, "yes" or "no" for a yes/no objective, the
   * name of an option for an enumeration.
   */
  predicate DefaultInRange(o: Objective) {
    match o.kind
    case Number(min, max, d) => d.None? || !(d.value < min || d.value > max)
    case YesNo(d) => d.None? || d.value == "yes" || d.value == "no"
    case Enum(options, d) => d.None? || d.value in options.entries
  }

  /** The default value as `allValues` spells values: a number in decimal, a name as is. */
  function DefaultText(o: Objective): Option<string> {
    match o.kind
    case Number(_, _, d) => if d.Some? then Some(IntToString(d.value)) else None
    case YesNo(d) => d
    case Enum(_, d) => d
  }

  /** What the default check reports: the rejected default, named with its objective. */
  function DefaultDiags(o: Objective): seq<Diagnostic> {
    if DefaultInRange(o) then [] else [DefaultOutOfRange(DefaultText(o).value, o.id)]
  }

  /** The description ids of the options listed in `names`, in order. */
  function OptionDescriptions(options: Dict<OptionModel>, names: seq<string>): seq<string> {
    if names == [] then []
    else
      var n := |names| - 1;
      OptionDescriptions(options, names[..n])
      + (if names[n] in options.entries then [options.entries[names[n]].description] else [])
  }

  /** The lookups of the option descriptions listed in `names`, in order. */
  function OptionDiags(options: Dict<OptionModel>, names: seq<string>, lists: seq<StringList>): seq<Diagnostic> {
    if names == [] then []
    else
      var n := |names| - 1;
      OptionDiags(options, names[..n], lists)
      + (if names[n] in options.entries then UnknownStringDiags(lists, DescriptionField, options.entries[names[n]].description) else [])
  }

  /** The string ids `verifyObjective` looks up, in order. */
  function ObjectiveKeys(o: Objective): seq<string> {
    [o.description] + (if o.kind.Enum? then OptionDescriptions(o.kind.options, o.kind.options.keys) else [])
  }

  /** What `verifyObjective` reports: its description lookup, its default check, its option description lookups. */
  function ObjectiveDiags(o: Objective, lists: seq<StringList>): seq<Diagnostic> {
    UnknownStringDiags(lists, DescriptionField, o.description) + DefaultDiags(o)
    + (if o.kind.Enum? then OptionDiags(o.kind.options, o.kind.options.keys, lists) else [])
  }

  /** Marking no key changes nothing. */
  lemma MarkKeysNone(lists: seq<StringList>)
    ensures MarkKeys(lists, []) == lists
  {
    forall i | 0 <= i < |lists| ensures MarkList(lists[i], []) == lists[i] {
      assert MarkList(lists[i], []).strings.entries == lists[i].strings.entries;
    }
  }

  /** The default check of `verifyObjective`, one branch per kind. */
  method CheckDefault(o: Objective, out: Diagnostics)
    modifies out
    ensures out.log == old(out.log) + DefaultDiags(o)
  {
    match o.kind
    case Number(min, max, d) =>
      if d.Some? && (d.value < min || d.value > max) {
        out.Error(DefaultOutOfRange(IntToString(d.value), o.id));
      }
    case YesNo(d) =>
      if d.Some? && d.value != "yes" && d.value != "no" {
        out.Error(DefaultOutOfRange(d.value, o.id));
      }
    case Enum(options, d) =>
      if d.Some? && d.value !in options.entries {
        out.Error(DefaultOutOfRange(d.value, o.id));
      }
  }

  /** The option loop of `verifyObjective`: looks up every option's description, in option order. */
  method CheckOptionDescriptions(options: Dict<OptionModel>, challenge: ChallengeModel, out: Diagnostics)
    modifies challenge, out
    ensures challenge.stringLists == MarkKeys(old(challenge.stringLists), OptionDescriptions(options, options.keys))
    ensures out.log == old(out.log) + OptionDiags(options, options.keys, old(challenge.stringLists))
  {
    ghost var lists := challenge.stringLists;
    ghost var log := out.log;
    var names := options.keys;
    MarkKeysNone(lists);
    for k := 0 to |names|
      invariant challenge.stringLists == MarkKeys(lists, OptionDescriptions(options, names[..k]))
      invariant out.log == log + OptionDiags(options, names[..k], lists)
    {
      assert names[..k + 1][..k] == names[..k];
      if names[k] in options.entries {
        var description := options.entries[names[k]].description;
        UnknownStringDiagsMarked(lists, OptionDescriptions(options, names[..k]), DescriptionField, description);
        CheckString(DescriptionField, description, challenge, out);
        AppendAssoc(log, OptionDiags(options, names[..k], lists), UnknownStringDiags(lists, DescriptionField, description));
        MarkKeysTwice(lists, OptionDescriptions(options, names[..k]), [description]);
        assert OptionDescriptions(options, names[..k + 1]) == OptionDescriptions(options, names[..k]) + [description];
      } else {
        assert OptionDescriptions(options, names[..k + 1]) == OptionDescriptions(options, names[..k]);
      }
    }
    assert names[..|names|] == names;
  }

  /**
   * `verifyObjective`: looks up the description, reports a default value out
   * of range, and for an enumeration looks up every option's description in
   * option order.
   */
  method VerifyObjective(o: Objective, challenge: ChallengeModel, out: Diagnostics)
    modifies challenge, out
    ensures challenge.stringLists == MarkKeys(old(challenge.stringLists), ObjectiveKeys(o))
    ensures out.log == old(out.log) + ObjectiveDiags(o, old(challenge.stringLists))
  {
    ghost var lists := challenge.stringLists;
    CheckString(DescriptionField, o.description, challenge, out);
    CheckDefault(o, out);
    if o.kind.Enum? {
      UnknownOptionDiagsMarked(o.kind.options, o.kind.options.keys, lists, [o.description]);
      CheckOptionDescriptions(o.kind.options, challenge, out);
      MarkKeysTwice(lists, [o.description], OptionDescriptions(o.kind.options, o.kind.options.keys));
    } else {
      assert ObjectiveKeys(o) == [o.description];
    }
  }

  lemma {:induction false} UnknownOptionDiagsMarked(options: Dict<OptionModel>, names: seq<string>, lists: seq<StringList>, keys: seq<string>)
    ensures OptionDiags(options, names, MarkKeys(lists, keys)) == OptionDiags(options, names, lists)
  {
    if names != [] {
      var n := |names| - 1;
      UnknownOptionDiagsMarked(options, names[..n], lists, keys);
      if names[n] in options.entries {
        UnknownStringDiagsMarked(lists, keys, DescriptionField, options.entries[names[n]].description);
      }
    }
  }

  // ---------------------------------------------------------------------
  // Scores

  /** Every index names a known objective. */
  predicate AllKnown(domains: map<string, seq<string>>, indexes: seq<string>) {
    indexes == [] || (AllKnown(domains, indexes[..|indexes| - 1]) && indexes[|indexes| - 1] in domains)
  }

  /** One `IndexNotFound` per index, in order, that names no objective. */
  function IndexDiags(domains: map<string, seq<string>>, indexes: seq<string>): seq<Diagnostic> {
    if indexes == [] then []
    else
      var n := |indexes| - 1;
      IndexDiags(domains, indexes[..n]) + (if indexes[n] in domains then [] else [IndexNotFound(indexes[n])])
  }

  /** The indexes that name an objective, in order. */
  function KnownIndexes(domains: map<string, seq<string>>, indexes: seq<string>): seq<string> {
    if indexes == [] then []
    else
      var n := |indexes| - 1;
      KnownIndexes(domains, indexes[..n]) + (if indexes[n] in domains then [indexes[n]] else [])
  }

  /** The legal values of each index that names an objective, in order. */
  function IndexDomains(domains: map<string, seq<string>>, indexes: seq<string>): seq<seq<string>> {
    if indexes == [] then []
    else
      var n := |indexes| - 1;
      IndexDomains(domains, indexes[..n]) + (if indexes[n] in domains then [domains[indexes[n]]] else [])
  }

  function UsedTwiceDiags(repeated: seq<string>): seq<Diagnostic> {
    if repeated == [] then []
    else UsedTwiceDiags(repeated[..|repeated| - 1]) + [IndexUsedTwice(repeated[|repeated| - 1])]
  }

  lemma UsedTwiceStep(repeated: seq<string>, index: string)
    ensures UsedTwiceDiags(repeated + [index]) == UsedTwiceDiags(repeated) + [IndexUsedTwice(index)]
  {
    assert (repeated + [index])[..|repeated|] == repeated;
  }

  /** One `IndexUsedTwice` per known objective the index list names more than once, in order of first use. */
  function DuplicateIndexDiags(domains: map<string, seq<string>>, indexes: seq<string>): seq<Diagnostic> {
    var counts := Tally(KnownIndexes(domains, indexes));
    UsedTwiceDiags(RepeatedKeys(counts.keys, counts.entries))
  }

  /** Every value whose index names an objective is one of its legal values. */
  predicate ValuesOk(domains: map<string, seq<string>>, indexes: seq<string>, refs: seq<string>)
    requires |refs| == |indexes|
  {
    if refs == [] then true
    else
      var n := |refs| - 1;
      ValuesOk(domains, indexes[..n], refs[..n]) && (indexes[n] in domains ==> refs[n] in domains[indexes[n]])
  }

  /** A case passes its shape check: one value per index, each legal for its known objective. */
  predicate CaseOk(domains: map<string, seq<string>>, indexes: seq<string>, refs: seq<string>) {
    |refs| == |indexes| && ValuesOk(domains, indexes, refs)
  }

  /** One `ValueOutOfRange` per position, in order, whose value is not legal for its known objective. */
  function ValueDiags(domains: map<string, seq<string>>, indexes: seq<string>, refs: seq<string>): seq<Diagnostic>
    requires |refs| == |indexes|
  {
    if refs == [] then []
    else
      var n := |refs| - 1;
      ValueDiags(domains, indexes[..n], refs[..n])
      + (if indexes[n] in domains && refs[n] !in domains[indexes[n]] then [ValueOutOfRange(refs[n], indexes[n])] else [])
  }

  /** The shape check of one case: its length, then its values. */
  function ShapeDiags(domains: map<string, seq<string>>, indexes: seq<string>, refs: seq<string>): seq<Diagnostic> {
    if |refs| != |indexes| then [IndexRefCountMismatch] else ValueDiags(domains, indexes, refs)
  }

  function ErrorDiags(c: Case, lists: seq<StringList>): seq<Diagnostic> {
    if c.error.Some? then UnknownStringDiags(lists, ErrorField, c.error.value) else []
  }

  /** The checks of the cases in order: each case's shape, then the lookup of its error message. */
  function CasesDiags(domains: map<string, seq<string>>, indexes: seq<string>, cases: seq<Case>, lists: seq<StringList>): seq<Diagnostic> {
    if cases == [] then []
    else
      var n := |cases| - 1;
      CasesDiags(domains, indexes, cases[..n], lists) + ShapeDiags(domains, indexes, cases[n].indexRefs) + ErrorDiags(cases[n], lists)
  }

  function CaseErrorKeys(c: Case): seq<string> {
    if c.error.Some? then [c.error.value] else []
  }

  /** The error message ids of the cases, in order. */
  function ErrorKeys(cases: seq<Case>): seq<string> {
    if cases == [] then [] else ErrorKeys(cases[..|cases| - 1]) + CaseErrorKeys(cases[|cases| - 1])
  }

  /** Every case passes its shape check. */
  predicate CasesOk(domains: map<string, seq<string>>, indexes: seq<string>, cases: seq<Case>) {
    cases == [] || (CasesOk(domains, indexes, cases[..|cases| - 1]) && CaseOk(domains, indexes, cases[|cases| - 1].indexRefs))
  }

  /** The number of cases whose values `t` matches, in the prefix sense of `objectiveValuesEqual`. */
  function MatchCount(t: Tuple, cases: seq<Case>): nat {
    if cases == [] then 0
    else
      var n := |cases| - 1;
      MatchCount(t, cases[..n]) + (if t <= cases[n].indexRefs then 1 else 0)
  }

  /** One diagnostic per combination, in order, that is matched by no case or by several. */
  function CoverageDiags(indexes: seq<string>, combos: seq<Tuple>, cases: seq<Case>): seq<Diagnostic> {
    if combos == [] then []
    else
      var n := |combos| - 1;
      var count := MatchCount(combos[n], cases);
      CoverageDiags(indexes, combos[..n], cases)
      + (if count == 0 then [NoCaseFound(indexes, combos[n])]
         else if count > 1 then [CasesFound(count, indexes, combos[n])]
         else [])
  }

  /** The coverage check runs only when every index is known and every case passed its shape check. */
  predicate CoverageEnabled(domains: map<string, seq<string>>, score: Score) {
    AllKnown(domains, score.indexes) && CasesOk(domains, score.indexes, score.cases)
  }

  lemma AppendFour<T>(s: seq<T>, a: seq<T>, b: seq<T>, c: seq<T>, d: seq<T>)
    ensures s + (a + b + c + d) == s + a + b + c + d
  {
  }

  lemma AppendFive<T>(s: seq<T>, a: seq<T>, b: seq<T>, c: seq<T>, d: seq<T>, e: seq<T>)
    ensures s + (a + b + c + d + e) == s + a + b + c + d + e
  {
  }

  lemma AppendThree<T>(s: seq<T>, a: seq<T>, b: seq<T>, c: seq<T>)
    ensures s + (a + b + c) == s + a + b + c
  {
  }

  lemma AppendAssoc<T>(a: seq<T>, b: seq<T>, c: seq<T>)
    ensures a + (b + c) == a + b + c
  {
  }

  /** Everything `verifyScore` reports, in order. */
  function ScoreDiags(domains: map<string, seq<string>>, score: Score, lists: seq<StringList>): seq<Diagnostic> {
    IndexDiags(domains, score.indexes) + DuplicateIndexDiags(domains, score.indexes)
    + CasesDiags(domains, score.indexes, score.cases, lists)
    + (if CoverageEnabled(domains, score)
       then CoverageDiags(score.indexes, Combinations(IndexDomains(domains, score.indexes)), score.cases)
       else [])
  }

  lemma MarkObjectivesNone(objs: Dict<Objective>)
    ensures MarkObjectives(objs, []) == objs
  {
    assert MarkObjectives(objs, []).entries == objs.entries;
  }

  /** Marking one more index: a known objective is set used, an unknown index changes nothing. */
  lemma MarkObjectivesStep(objs: Dict<Objective>, indexes: seq<string>, i: nat)
    requires i < |indexes|
    ensures indexes[i] !in objs.entries ==> MarkObjectives(objs, indexes[..i + 1]) == MarkObjectives(objs, indexes[..i])
    ensures indexes[i] in objs.entries ==>
      var marked := MarkObjectives(objs, indexes[..i]);
      MarkObjectives(objs, indexes[..i + 1]) == marked.Put(indexes[i], marked.entries[indexes[i]].(used := true))
    ensures indexes[i] in objs.entries ==> Domain(MarkObjectives(objs, indexes[..i]).entries[indexes[i]]) == Domains(objs)[indexes[i]]
  {
    var id := indexes[i];
    assert indexes[..i + 1] == indexes[..i] + [id];
    var a, b := MarkObjectives(objs, indexes[..i + 1]), MarkObjectives(objs, indexes[..i]);
    if id !in objs.entries {
      assert a.entries == b.entries;
    } else {
      assert a.entries == b.Put(id, b.entries[id].(used := true)).entries;
    }
  }

  /** What one more index, unknown or known, adds to the index loop's results. */
  lemma UnknownIndexStep(domains: map<string, seq<string>>, indexes: seq<string>, i: nat)
    requires i < |indexes| && indexes[i] !in domains
    ensures IndexDiags(domains, indexes[..i + 1]) == IndexDiags(domains, indexes[..i]) + [IndexNotFound(indexes[i])]
    ensures KnownIndexes(domains, indexes[..i + 1]) == KnownIndexes(domains, indexes[..i])
    ensures IndexDomains(domains, indexes[..i + 1]) == IndexDomains(domains, indexes[..i])
    ensures !AllKnown(domains, indexes[..i + 1])
  {
    assert indexes[..i + 1][..i] == indexes[..i];
  }

  lemma KnownIndexStep(domains: map<string, seq<string>>, indexes: seq<string>, i: nat)
    requires i < |indexes| && indexes[i] in domains
    ensures IndexDiags(domains, indexes[..i + 1]) == IndexDiags(domains, indexes[..i])
    ensures KnownIndexes(domains, indexes[..i + 1]) == KnownIndexes(domains, indexes[..i]) + [indexes[i]]
    ensures Tally(KnownIndexes(domains, indexes[..i + 1])) ==
              (var t := Tally(KnownIndexes(domains, indexes[..i]));
               t.Put(indexes[i], if indexes[i] in t.entries then t.entries[indexes[i]] + 1 else 1))
    ensures AllKnown(domains, indexes[..i + 1]) == AllKnown(domains, indexes[..i])
  {
    assert indexes[..i + 1][..i] == indexes[..i];
    var known := KnownIndexes(domains, indexes[..i]);
    assert (known + [indexes[i]])[..|known|] == known;
  }

  lemma CombinationsStep(domains: map<string, seq<string>>, indexes: seq<string>, i: nat)
    requires i < |indexes| && indexes[i] in domains
    ensures Combinations(IndexDomains(domains, indexes[..i + 1]))
            == Merge(Combinations(IndexDomains(domains, indexes[..i])), domains[indexes[i]])
  {
    assert indexes[..i + 1][..i] == indexes[..i];
    var before := IndexDomains(domains, indexes[..i]);
    assert IndexDomains(domains, indexes[..i + 1]) == before + [domains[indexes[i]]];
    assert (before + [domains[indexes[i]]])[..|before|] == before;
  }

  /**
   * The index loop's body for one index: an unknown index is reported and
   * disables the coverage check; a known one has its objective marked used,
   * its values merged into the combinations and its count raised.
   */
  method CheckIndex(mission: MissionModel, index: string, combos: seq<Tuple>, counts: Dict<nat>, allKnown: bool, out: Diagnostics)
    returns (combos': seq<Tuple>, counts': Dict<nat>, allKnown': bool)
    modifies mission, out
    ensures index !in old(mission.objectives.entries) ==>
      out.log == old(out.log) + [IndexNotFound(index)] && mission.objectives == old(mission.objectives)
      && combos' == combos && counts' == counts && !allKnown'
    ensures index in old(mission.objectives.entries) ==>
      var objective := old(mission.objectives.entries[index]);
      out.log == old(out.log) && mission.objectives == old(mission.objectives).Put(index, objective.(used := true))
      && combos' == Merge(combos, Domain(objective))
      && counts' == counts.Put(index, if index in counts.entries then counts.entries[index] + 1 else 1)
      && allKnown' == allKnown
  {
    combos', counts', allKnown' := combos, counts, allKnown;
    if index !in mission.objectives.entries {
      out.Error(IndexNotFound(index));
      allKnown' := false;
    } else {
      var objective := mission.objectives.entries[index];
      mission.objectives := mission.objectives.Put(index, objective.(used := true));
      var values := AllValues(objective);
      combos' := MergeObjectiveValues(combos, values);
      counts' := counts.Put(index, if index in counts.entries then counts.entries[index] + 1 else 1);
    }
  }

  /** One turn of the index loop, stated as the loop's invariant before and after index `i`. */
  method CheckIndexAt(mission: MissionModel, indexes: seq<string>, i: nat, ghost objs: Dict<Objective>, ghost log: seq<Diagnostic>,
                      combos: seq<Tuple>, counts: Dict<nat>, allKnown: bool, out: Diagnostics)
    returns (combos': seq<Tuple>, counts': Dict<nat>, allKnown': bool)
    requires i < |indexes|
    requires mission.objectives == MarkObjectives(objs, indexes[..i])
    requires out.log == log + IndexDiags(Domains(objs), indexes[..i])
    requires combos == Combinations(IndexDomains(Domains(objs), indexes[..i]))
    requires counts == Tally(KnownIndexes(Domains(objs), indexes[..i]))
    requires allKnown == AllKnown(Domains(objs), indexes[..i])
    modifies mission, out
    ensures mission.objectives == MarkObjectives(objs, indexes[..i + 1])
    ensures out.log == log + IndexDiags(Domains(objs), indexes[..i + 1])
    ensures combos' == Combinations(IndexDomains(Domains(objs), indexes[..i + 1]))
    ensures counts' == Tally(KnownIndexes(Domains(objs), indexes[..i + 1]))
    ensures allKnown' == AllKnown(Domains(objs), indexes[..i + 1])
  {
    ghost var domains := Domains(objs);
    var index := indexes[i];
    MarkObjectivesStep(objs, indexes, i);
    assert index in mission.objectives.entries <==> index in objs.entries;
    if index in mission.objectives.entries {
      KnownIndexStep(domains, indexes, i);
      CombinationsStep(domains, indexes, i);
      assert Domain(mission.objectives.entries[index]) == domains[index];
      combos', counts', allKnown' := CheckIndex(mission, index, combos, counts, allKnown, out);
    } else {
      UnknownIndexStep(domains, indexes, i);
      combos', counts', allKnown' := CheckIndex(mission, index, combos, counts, allKnown, out);
      AppendAssoc(log, IndexDiags(domains, indexes[..i]), [IndexNotFound(index)]);
    }
  }

  /**
   * The index loop of `verifyScore`: reports every unknown index; for every
   * known one, marks its objective used, extends the combinations with its
   * values and counts it.
   */
  method CheckIndexes(mission: MissionModel, indexes: seq<string>, out: Diagnostics)
    returns (combos: seq<Tuple>, counts: Dict<nat>, allKnown: bool)
    modifies mission, out
    ensures mission.objectives == MarkObjectives(old(mission.objectives), indexes)
    ensures out.log == old(out.log) + IndexDiags(Domains(old(mission.objectives)), indexes)
    ensures combos == Combinations(IndexDomains(Domains(old(mission.objectives)), indexes))
    ensures counts == Tally(KnownIndexes(Domains(old(mission.objectives)), indexes))
    ensures allKnown == AllKnown(Domains(old(mission.objectives)), indexes)
  {
    ghost var objs := mission.objectives;
    ghost var domains := Domains(objs);
    ghost var log := out.log;
    combos := [];
    counts := EmptyDict();
    allKnown := true;
    MarkObjectivesNone(objs);
    for i := 0 to |indexes|
      invariant mission.objectives == MarkObjectives(objs, indexes[..i])
      invariant out.log == log + IndexDiags(domains, indexes[..i])
      invariant combos == Combinations(IndexDomains(domains, indexes[..i]))
      invariant counts == Tally(KnownIndexes(domains, indexes[..i]))
      invariant allKnown == AllKnown(domains, indexes[..i])
    {
      combos, counts, allKnown := CheckIndexAt(mission, indexes, i, objs, log, combos, counts, allKnown, out);
    }
    assert indexes[..|indexes|] == indexes;
  }

  /** The repeated-index loop of `verifyScore`: reports every counted objective whose count exceeds one. */
  method ReportRepeatedIndexes(counts: Dict<nat>, out: Diagnostics)
    modifies out
    ensures out.log == old(out.log) + UsedTwiceDiags(RepeatedKeys(counts.keys, counts.entries))
  {
    ghost var log := out.log;
    for k := 0 to |counts.keys|
      invariant out.log == log + UsedTwiceDiags(RepeatedKeys(counts.keys[..k], counts.entries))
    {
      assert counts.keys[..k + 1][..k] == counts.keys[..k];
      var index := counts.keys[k];
      ghost var before := RepeatedKeys(counts.keys[..k], counts.entries);
      if index in counts.entries && counts.entries[index] > 1 {
        assert RepeatedKeys(counts.keys[..k + 1], counts.entries) == before + [index];
        out.Error(IndexUsedTwice(index));
        UsedTwiceStep(before, index);
        AppendAssoc(log, UsedTwiceDiags(before), [IndexUsedTwice(index)]);
      } else {
        assert RepeatedKeys(counts.keys[..k + 1], counts.entries) == before;
      }
    }
    assert counts.keys[..|counts.keys|] == counts.keys;
  }

  lemma ValuesStep(domains: map<string, seq<string>>, indexes: seq<string>, refs: seq<string>, p: nat)
    requires |refs| == |indexes| && p < |refs|
    ensures ValueDiags(domains, indexes[..p + 1], refs[..p + 1]) == ValueDiags(domains, indexes[..p], refs[..p])
      + (if indexes[p] in domains && refs[p] !in domains[indexes[p]] then [ValueOutOfRange(refs[p], indexes[p])] else [])
    ensures ValuesOk(domains, indexes[..p + 1], refs[..p + 1])
        == (ValuesOk(domains, indexes[..p], refs[..p]) && (indexes[p] in domains ==> refs[p] in domains[indexes[p]]))
  {
    assert indexes[..p + 1][..p] == indexes[..p];
    assert refs[..p + 1][..p] == refs[..p];
  }

  /**
   * The shape check of one case: a length different from the index count is
   * reported once; otherwise every value that is not legal for its known
   * objective is reported. `ok` is whether nothing was reported.
   */
  method CheckCaseValues(objs: Dict<Objective>, indexes: seq<string>, refs: seq<string>, out: Diagnostics)
    returns (ok: bool)
    modifies out
    ensures ok == CaseOk(Domains(objs), indexes, refs)
    ensures out.log == old(out.log) + ShapeDiags(Domains(objs), indexes, refs)
  {
    ghost var domains := Domains(objs);
    ghost var log := out.log;
    if |refs| != |indexes| {
      out.Error(IndexRefCountMismatch);
      ok := false;
    } else {
      ok := true;
      for p := 0 to |refs|
        invariant out.log == log + ValueDiags(domains, indexes[..p], refs[..p])
        invariant ok == ValuesOk(domains, indexes[..p], refs[..p])
      {
        ValuesStep(domains, indexes, refs, p);
        var id := indexes[p];
        if id in objs.entries {
          var values := AllValues(objs.entries[id]);
          if refs[p] !in values {
            out.Error(ValueOutOfRange(refs[p], id));
            AppendAssoc(log, ValueDiags(domains, indexes[..p], refs[..p]), [ValueOutOfRange(refs[p], id)]);
            ok := false;
          }
        }
      }
      assert indexes[..|refs|] == indexes;
      assert refs[..|refs|] == refs;
    }
  }

  /** The error message lookup of one case, when it has an error. */
  method CheckErrorString(c: Case, challenge: ChallengeModel, out: Diagnostics)
    modifies challenge, out
    ensures challenge.stringLists == MarkKeys(old(challenge.stringLists), CaseErrorKeys(c))
    ensures out.log == old(out.log) + ErrorDiags(c, old(challenge.stringLists))
  {
    if c.error.Some? {
      CheckString(ErrorField, c.error.value, challenge, out);
    } else {
      MarkKeysNone(challenge.stringLists);
    }
  }

  lemma {:induction false} CasesStep(domains: map<string, seq<string>>, indexes: seq<string>, cases: seq<Case>, k: nat, lists: seq<StringList>)
    requires k < |cases|
    ensures CasesDiags(domains, indexes, cases[..k + 1], lists)
         == CasesDiags(domains, indexes, cases[..k], lists) + ShapeDiags(domains, indexes, cases[k].indexRefs)
            + ErrorDiags(cases[k], MarkKeys(lists, ErrorKeys(cases[..k])))
    ensures ErrorKeys(cases[..k + 1]) == ErrorKeys(cases[..k]) + CaseErrorKeys(cases[k])
    ensures CasesOk(domains, indexes, cases[..k + 1]) == (CasesOk(domains, indexes, cases[..k]) && CaseOk(domains, indexes, cases[k].indexRefs))
  {
    assert cases[..k + 1][..k] == cases[..k];
    if cases[k].error.Some? {
      UnknownStringDiagsMarked(lists, ErrorKeys(cases[..k]), ErrorField, cases[k].error.value);
    }
  }

  /**
   * The case loop's body for case `k`: its shape check, then the lookup of its
   * error message; stated as one step of the loop over `cases`.
   */
  method CheckCase(objs: Dict<Objective>, indexes: seq<string>, cases: seq<Case>, k: nat, okBefore: bool,
                   ghost lists: seq<StringList>, ghost log: seq<Diagnostic>, challenge: ChallengeModel, out: Diagnostics)
    returns (ok: bool)
    requires k < |cases|
    requires okBefore == CasesOk(Domains(objs), indexes, cases[..k])
    requires challenge.stringLists == MarkKeys(lists, ErrorKeys(cases[..k]))
    requires out.log == log + CasesDiags(Domains(objs), indexes, cases[..k], lists)
    modifies challenge, out
    ensures ok == CasesOk(Domains(objs), indexes, cases[..k + 1])
    ensures challenge.stringLists == MarkKeys(lists, ErrorKeys(cases[..k + 1]))
    ensures out.log == log + CasesDiags(Domains(objs), indexes, cases[..k + 1], lists)
  {
    ghost var domains := Domains(objs);
    CasesStep(domains, indexes, cases, k, lists);
    MarkKeysTwice(lists, ErrorKeys(cases[..k]), CaseErrorKeys(cases[k]));
    var shapeOk := CheckCaseValues(objs, indexes, cases[k].indexRefs, out);
    CheckErrorString(cases[k], challenge, out);
    ok := okBefore && shapeOk;
    AppendThree(log, CasesDiags(domains, indexes, cases[..k], lists), ShapeDiags(domains, indexes, cases[k].indexRefs),
                ErrorDiags(cases[k], MarkKeys(lists, ErrorKeys(cases[..k]))));
  }

  /** The case loop of `verifyScore`: the shape check of every case, then the lookup of its error message. */
  method CheckCases(objs: Dict<Objective>, indexes: seq<string>, cases: seq<Case>, challenge: ChallengeModel, out: Diagnostics)
    returns (ok: bool)
    modifies challenge, out
    ensures ok == CasesOk(Domains(objs), indexes, cases)
    ensures challenge.stringLists == MarkKeys(old(challenge.stringLists), ErrorKeys(cases))
    ensures out.log == old(out.log) + CasesDiags(Domains(objs), indexes, cases, old(challenge.stringLists))
  {
    ghost var lists := challenge.stringLists;
    ghost var log := out.log;
    ok := true;
    MarkKeysNone(lists);
    for k := 0 to |cases|
      invariant ok == CasesOk(Domains(objs), indexes, cases[..k])
      invariant challenge.stringLists == MarkKeys(lists, ErrorKeys(cases[..k]))
      invariant out.log == log + CasesDiags(Domains(objs), indexes, cases[..k], lists)
    {
      ok := CheckCase(objs, indexes, cases, k, ok, lists, log, challenge, out);
    }
    assert cases[..|cases|] == cases;
  }

  /** A combination and the number of cases found for it. */
  datatype CombinationCount = CombinationCount(values: Tuple, useCount: nat)

  /**
   * The coverage check of `verifyScore`: counts, for every combination, the
   * cases whose values match it, then reports every combination whose count
   * is not one.
   */
  method CheckCoverage(indexes: seq<string>, combos: seq<Tuple>, cases: seq<Case>, out: Diagnostics)
    modifies out
    ensures out.log == old(out.log) + CoverageDiags(indexes, combos, cases)
  {
    ghost var log := out.log;
    var records := new CombinationCount[|combos|](k requires 0 <= k < |combos| => CombinationCount(combos[k], 0));
    for k := 0 to records.Length
      modifies records
      invariant forall q :: 0 <= q < k ==> records[q] == CombinationCount(combos[q], MatchCount(combos[q], cases))
      invariant forall q :: k <= q < records.Length ==> records[q] == CombinationCount(combos[q], 0)
    {
      for j := 0 to |cases|
        modifies records
        invariant forall q :: 0 <= q < k ==> records[q] == CombinationCount(combos[q], MatchCount(combos[q], cases))
        invariant forall q :: k < q < records.Length ==> records[q] == CombinationCount(combos[q], 0)
        invariant records[k] == CombinationCount(combos[k], MatchCount(combos[k], cases[..j]))
      {
        assert cases[..j + 1][..j] == cases[..j];
        var equal := ObjectiveValuesEqual(records[k].values, cases[j].indexRefs);
        if equal {
          records[k] := records[k].(useCount := records[k].useCount + 1);
        }
      }
      assert cases[..|cases|] == cases;
    }
    for k := 0 to records.Length
      modifies out
      invariant out.log == log + CoverageDiags(indexes, combos[..k], cases)
    {
      assert combos[..k + 1][..k] == combos[..k];
      if records[k].useCount != 1 {
        if records[k].useCount == 0 {
          out.Error(NoCaseFound(indexes, records[k].values));
          AppendAssoc(log, CoverageDiags(indexes, combos[..k], cases), [NoCaseFound(indexes, records[k].values)]);
        } else {
          out.Error(CasesFound(records[k].useCount, indexes, records[k].values));
          AppendAssoc(log, CoverageDiags(indexes, combos[..k], cases), [CasesFound(records[k].useCount, indexes, records[k].values)]);
        }
      }
    }
    assert combos[..|combos|] == combos;
  }

  /**
   * `verifyScore`: the index loop, the repeated-index report, the case loop
   * and, when none of the index or case checks failed, the coverage check.
   * The known indexes' objectives are left marked used and the error message
   * strings looked up.
   */
  method VerifyScore(mission: MissionModel, score: Score, challenge: ChallengeModel, out: Diagnostics)
    modifies mission, challenge, out
    ensures mission.objectives == MarkObjectives(old(mission.objectives), score.indexes)
    ensures challenge.stringLists == MarkKeys(old(challenge.stringLists), ErrorKeys(score.cases))
    ensures out.log == old(out.log) + ScoreDiags(Domains(old(mission.objectives)), score, old(challenge.stringLists))
  {
    ghost var domains := Domains(mission.objectives);
    ghost var lists := challenge.stringLists;
    ghost var log := out.log;
    var combos, counts, okToCheckStates := CheckIndexes(mission, score.indexes, out);
    ghost var afterIndexes := out.log;
    ReportRepeatedIndexes(counts, out);
    ghost var afterRepeated := out.log;
    DomainsMarked(old(mission.objectives), score.indexes);
    var casesOk := CheckCases(mission.objectives, score.indexes, score.cases, challenge, out);
    ghost var afterCases := out.log;
    okToCheckStates := okToCheckStates && casesOk;
    assert okToCheckStates == CoverageEnabled(domains, score);
    if okToCheckStates {
      CheckCoverage(score.indexes, combos, score.cases, out);
    }
    ghost var coverage := if CoverageEnabled(domains, score)
       then CoverageDiags(score.indexes, Combinations(IndexDomains(domains, score.indexes)), score.cases)
       else [];
    ghost var indexDiags := IndexDiags(domains, score.indexes);
    ghost var duplicates := DuplicateIndexDiags(domains, score.indexes);
    ghost var casesDiags := CasesDiags(domains, score.indexes, score.cases, lists);
    assert out.log == log + indexDiags + duplicates + casesDiags + coverage;
    assert ScoreDiags(domains, score, lists) == indexDiags + duplicates + casesDiags + coverage;
    AppendFour(log, indexDiags, duplicates, casesDiags, coverage);
  }

  // ---------------------------------------------------------------------
  // Missions

  /** Marking strings used changes nothing `verifyObjective` reports. */
  lemma ObjectiveDiagsMarked(o: Objective, lists: seq<StringList>, keys: seq<string>)
    ensures ObjectiveDiags(o, MarkKeys(lists, keys)) == ObjectiveDiags(o, lists)
  {
    UnknownStringDiagsMarked(lists, keys, DescriptionField, o.description);
    if o.kind.Enum? {
      UnknownOptionDiagsMarked(o.kind.options, o.kind.options.keys, lists, keys);
    }
  }

  /** Marking strings used changes nothing the case checks report. */
  lemma {:induction false} CasesDiagsMarked(domains: map<string, seq<string>>, indexes: seq<string>, cases: seq<Case>,
                                            lists: seq<StringList>, keys: seq<string>)
    ensures CasesDiags(domains, indexes, cases, MarkKeys(lists, keys)) == CasesDiags(domains, indexes, cases, lists)
  {
    if cases != [] {
      var n := |cases| - 1;
      CasesDiagsMarked(domains, indexes, cases[..n], lists, keys);
      if cases[n].error.Some? {
        UnknownStringDiagsMarked(lists, keys, ErrorField, cases[n].error.value);
      }
    }
  }

  /** Marking strings used changes nothing `verifyScore` reports. */
  lemma ScoreDiagsMarked(domains: map<string, seq<string>>, score: Score, lists: seq<StringList>, keys: seq<string>)
    ensures ScoreDiags(domains, score, MarkKeys(lists, keys)) == ScoreDiags(domains, score, lists)
  {
    CasesDiagsMarked(domains, score.indexes, score.cases, lists, keys);
  }

  /** The string ids `verifyObjective` looks up for the objectives listed in `ids`, in order. */
  function ObjectivesKeys(objs: Dict<Objective>, ids: seq<string>): seq<string> {
    if ids == [] then []
    else
      var n := |ids| - 1;
      ObjectivesKeys(objs, ids[..n]) + (if ids[n] in objs.entries then ObjectiveKeys(objs.entries[ids[n]]) else [])
  }

  /** What `verifyObjective` reports for the objectives listed in `ids`, in order. */
  function ObjectivesDiags(objs: Dict<Objective>, ids: seq<string>, lists: seq<StringList>): seq<Diagnostic> {
    if ids == [] then []
    else
      var n := |ids| - 1;
      ObjectivesDiags(objs, ids[..n], lists) + (if ids[n] in objs.entries then ObjectiveDiags(objs.entries[ids[n]], lists) else [])
  }

  lemma ObjectivesStep(objs: Dict<Objective>, ids: seq<string>, k: nat, lists: seq<StringList>)
    requires k < |ids|
    ensures ObjectivesKeys(objs, ids[..k + 1])
         == ObjectivesKeys(objs, ids[..k]) + (if ids[k] in objs.entries then ObjectiveKeys(objs.entries[ids[k]]) else [])
    ensures ObjectivesDiags(objs, ids[..k + 1], lists)
         == ObjectivesDiags(objs, ids[..k], lists) + (if ids[k] in objs.entries then ObjectiveDiags(objs.entries[ids[k]], lists) else [])
  {
    assert ids[..k + 1][..k] == ids[..k];
  }

  /** The objective loop of `verifyMission`: every objective in key order, through `verifyObjective`. */
  method CheckObjectives(objs: Dict<Objective>, challenge: ChallengeModel, out: Diagnostics)
    modifies challenge, out
    ensures challenge.stringLists == MarkKeys(old(challenge.stringLists), ObjectivesKeys(objs, objs.keys))
    ensures out.log == old(out.log) + ObjectivesDiags(objs, objs.keys, old(challenge.stringLists))
  {
    ghost var lists := challenge.stringLists;
    ghost var log := out.log;
    var ids := objs.keys;
    MarkKeysNone(lists);
    for k := 0 to |ids|
      invariant challenge.stringLists == MarkKeys(lists, ObjectivesKeys(objs, ids[..k]))
      invariant out.log == log + ObjectivesDiags(objs, ids[..k], lists)
    {
      ObjectivesStep(objs, ids, k, lists);
      if ids[k] in objs.entries {
        var o := objs.entries[ids[k]];
        // The source computes the objective's legal values here and discards them.
        var values := AllValues(o);
        ObjectiveDiagsMarked(o, lists, ObjectivesKeys(objs, ids[..k]));
        VerifyObjective(o, challenge, out);
        AppendAssoc(log, ObjectivesDiags(objs, ids[..k], lists), ObjectiveDiags(o, lists));
        MarkKeysTwice(lists, ObjectivesKeys(objs, ids[..k]), ObjectiveKeys(o));
      } else {
        assert ObjectivesKeys(objs, ids[..k + 1]) == ObjectivesKeys(objs, ids[..k]);
      }
    }
    assert ids[..|ids|] == ids;
  }

  /** The indexes of the scores, in order. */
  function AllIndexes(scores: seq<Score>): seq<string> {
    if scores == [] then [] else AllIndexes(scores[..|scores| - 1]) + scores[|scores| - 1].indexes
  }

  /** The error message ids of the scores' cases, in order. */
  function ScoresErrorKeys(scores: seq<Score>): seq<string> {
    if scores == [] then [] else ScoresErrorKeys(scores[..|scores| - 1]) + ErrorKeys(scores[|scores| - 1].cases)
  }

  /** What `verifyScore` reports for each score, in order. */
  function ScoresDiags(domains: map<string, seq<string>>, scores: seq<Score>, lists: seq<StringList>): seq<Diagnostic> {
    if scores == [] then []
    else
      var n := |scores| - 1;
      ScoresDiags(domains, scores[..n], lists) + ScoreDiags(domains, scores[n], lists)
  }

  lemma ScoresStep(domains: map<string, seq<string>>, scores: seq<Score>, k: nat, lists: seq<StringList>)
    requires k < |scores|
    ensures AllIndexes(scores[..k + 1]) == AllIndexes(scores[..k]) + scores[k].indexes
    ensures ScoresErrorKeys(scores[..k + 1]) == ScoresErrorKeys(scores[..k]) + ErrorKeys(scores[k].cases)
    ensures ScoresDiags(domains, scores[..k + 1], lists) == ScoresDiags(domains, scores[..k], lists) + ScoreDiags(domains, scores[k], lists)
  {
    assert scores[..k + 1][..k] == scores[..k];
  }

  lemma {:induction false} ObjectivesDiagsMarked(objs: Dict<Objective>, ids: seq<string>, lists: seq<StringList>, keys: seq<string>)
    ensures ObjectivesDiags(objs, ids, MarkKeys(lists, keys)) == ObjectivesDiags(objs, ids, lists)
  {
    if ids != [] {
      var n := |ids| - 1;
      ObjectivesDiagsMarked(objs, ids[..n], lists, keys);
      if ids[n] in objs.entries {
        ObjectiveDiagsMarked(objs.entries[ids[n]], lists, keys);
      }
    }
  }

  lemma {:induction false} ScoresDiagsMarked(domains: map<string, seq<string>>, scores: seq<Score>, lists: seq<StringList>, keys: seq<string>)
    ensures ScoresDiags(domains, scores, MarkKeys(lists, keys)) == ScoresDiags(domains, scores, lists)
  {
    if scores != [] {
      var n := |scores| - 1;
      ScoresDiagsMarked(domains, scores[..n], lists, keys);
      ScoreDiagsMarked(domains, scores[n], lists, keys);
    }
  }

  /**
   * The score loop's body for score `k` of `mission`, stated as one step of
   * the loop: the objectives and strings marked so far, and the log so far,
   * extended by that score.
   */
  method CheckScore(mission: MissionModel, k: nat, ghost objs: Dict<Objective>, ghost lists: seq<StringList>,
                    ghost log: seq<Diagnostic>, challenge: ChallengeModel, out: Diagnostics)
    requires k < |mission.scores|
    requires mission.objectives == MarkObjectives(objs, AllIndexes(mission.scores[..k]))
    requires challenge.stringLists == MarkKeys(lists, ScoresErrorKeys(mission.scores[..k]))
    requires out.log == log + ScoresDiags(Domains(objs), mission.scores[..k], lists)
    modifies mission, challenge, out
    ensures mission.objectives == MarkObjectives(objs, AllIndexes(mission.scores[..k + 1]))
    ensures challenge.stringLists == MarkKeys(lists, ScoresErrorKeys(mission.scores[..k + 1]))
    ensures out.log == log + ScoresDiags(Domains(objs), mission.scores[..k + 1], lists)
  {
    var scores := mission.scores;
    ScoresStep(Domains(objs), scores, k, lists);
    ghost var marked := ScoresErrorKeys(scores[..k]);
    DomainsMarked(objs, AllIndexes(scores[..k]));
    ScoreDiagsMarked(Domains(objs), scores[k], lists, marked);
    VerifyScore(mission, scores[k], challenge, out);
    AppendAssoc(log, ScoresDiags(Domains(objs), scores[..k], lists), ScoreDiags(Domains(objs), scores[k], lists));
    MarkObjectivesTwice(objs, AllIndexes(scores[..k]), scores[k].indexes);
    MarkKeysTwice(lists, marked, ErrorKeys(scores[k].cases));
  }

  /** The score loop of `verifyMission`: every score in order, through `verifyScore`. */
  method CheckScores(mission: MissionModel, challenge: ChallengeModel, out: Diagnostics)
    modifies mission, challenge, out
    ensures mission.objectives == MarkObjectives(old(mission.objectives), AllIndexes(mission.scores))
    ensures challenge.stringLists == MarkKeys(old(challenge.stringLists), ScoresErrorKeys(mission.scores))
    ensures out.log == old(out.log) + ScoresDiags(Domains(old(mission.objectives)), mission.scores, old(challenge.stringLists))
  {
    ghost var objs := mission.objectives;
    ghost var lists := challenge.stringLists;
    ghost var log := out.log;
    MarkObjectivesNone(objs);
    MarkKeysNone(lists);
    for k := 0 to |mission.scores|
      invariant mission.objectives == MarkObjectives(objs, AllIndexes(mission.scores[..k]))
      invariant challenge.stringLists == MarkKeys(lists, ScoresErrorKeys(mission.scores[..k]))
      invariant out.log == log + ScoresDiags(Domains(objs), mission.scores[..k], lists)
    {
      CheckScore(mission, k, objs, lists, log, challenge, out);
    }
    assert mission.scores[..|mission.scores|] == mission.scores;
  }

  /** One `ObjectiveNotUsed` per objective listed in `ids`, in order, not marked used. */
  function UnusedDiags(objs: Dict<Objective>, ids: seq<string>): seq<Diagnostic> {
    if ids == [] then []
    else
      var n := |ids| - 1;
      UnusedDiags(objs, ids[..n]) + (if ids[n] in objs.entries && !objs.entries[ids[n]].used then [ObjectiveNotUsed(ids[n])] else [])
  }

  /** The last loop of `verifyMission`: reports every objective, in key order, that no score indexed. */
  method ReportUnusedObjectives(objs: Dict<Objective>, out: Diagnostics)
    modifies out
    ensures out.log == old(out.log) + UnusedDiags(objs, objs.keys)
  {
    ghost var log := out.log;
    var ids := objs.keys;
    for k := 0 to |ids|
      invariant out.log == log + UnusedDiags(objs, ids[..k])
    {
      assert ids[..k + 1][..k] == ids[..k];
      if ids[k] in objs.entries && !objs.entries[ids[k]].used {
        out.Error(ObjectiveNotUsed(ids[k]));
        AppendAssoc(log, UnusedDiags(objs, ids[..k]), [ObjectiveNotUsed(ids[k])]);
      }
    }
    assert ids[..|ids|] == ids;
  }

  /** The lookups of a mission's name and description. */
  method CheckMissionStrings(name: string, description: string, challenge: ChallengeModel, out: Diagnostics)
    modifies challenge, out
    ensures challenge.stringLists == MarkKeys(old(challenge.stringLists), [name, description])
    ensures out.log == old(out.log) + UnknownStringDiags(old(challenge.stringLists), NameField, name)
                       + UnknownStringDiags(old(challenge.stringLists), DescriptionField, description)
  {
    ghost var lists := challenge.stringLists;
    CheckString(NameField, name, challenge, out);
    UnknownStringDiagsMarked(lists, [name], DescriptionField, description);
    CheckString(DescriptionField, description, challenge, out);
    MarkKeysTwice(lists, [name], [description]);
    assert [name] + [description] == [name, description];
  }

  /** The string ids `verifyMission` looks up, in order. */
  function MissionKeys(m: DocMission): seq<string> {
    var objs := ObjectivesOf(m);
    [m.name, m.description] + ObjectivesKeys(objs, objs.keys) + ScoresErrorKeys(ScoresOf(m))
  }

  /** Everything `verifyMission` reports, in order. */
  function MissionDiags(m: DocMission, lists: seq<StringList>): seq<Diagnostic> {
    var objs := ObjectivesOf(m);
    UnknownStringDiags(lists, NameField, m.name) + UnknownStringDiags(lists, DescriptionField, m.description)
    + ObjectivesDiags(objs, objs.keys, lists)
    + ScoresDiags(Domains(objs), ScoresOf(m), lists)
    + UnusedDiags(MarkObjectives(objs, AllIndexes(ScoresOf(m))), objs.keys)
  }

  /**
   * `verifyMission`: builds the mission model, looks up its name and
   * description, verifies every objective, then every score, and finally
   * reports the objectives no score indexed.
   */
  method VerifyMission(m: DocMission, challenge: ChallengeModel, out: Diagnostics)
    modifies challenge, out
    ensures challenge.stringLists == MarkKeys(old(challenge.stringLists), MissionKeys(m))
    ensures out.log == old(out.log) + MissionDiags(m, old(challenge.stringLists))
  {
    ghost var lists := challenge.stringLists;
    ghost var log := out.log;
    var mission := CreateMissionModel(m);
    ghost var objs := mission.objectives;
    ghost var scores := mission.scores;
    CheckMissionStrings(mission.name, mission.description, challenge, out);
    ghost var keys := [m.name, m.description];
    ghost var nameDiags := UnknownStringDiags(lists, NameField, m.name);
    ghost var descriptionDiags := UnknownStringDiags(lists, DescriptionField, m.description);

    ObjectivesDiagsMarked(objs, objs.keys, lists, keys);
    CheckObjectives(mission.objectives, challenge, out);
    MarkKeysTwice(lists, keys, ObjectivesKeys(objs, objs.keys));
    ghost var objectiveDiags := ObjectivesDiags(objs, objs.keys, lists);
    assert out.log == log + nameDiags + descriptionDiags + objectiveDiags;
    keys := keys + ObjectivesKeys(objs, objs.keys);

    ScoresDiagsMarked(Domains(objs), scores, lists, keys);
    CheckScores(mission, challenge, out);
    MarkKeysTwice(lists, keys, ScoresErrorKeys(scores));
    ghost var scoreDiags := ScoresDiags(Domains(objs), scores, lists);
    assert out.log == log + nameDiags + descriptionDiags + objectiveDiags + scoreDiags;
    assert keys + ScoresErrorKeys(scores) == MissionKeys(m);

    ReportUnusedObjectives(mission.objectives, out);
    ghost var unusedDiags := UnusedDiags(MarkObjectives(objs, AllIndexes(scores)), objs.keys);
    assert out.log == log + nameDiags + descriptionDiags + objectiveDiags + scoreDiags + unusedDiags;
    assert MissionDiags(m, lists) == nameDiags + descriptionDiags + objectiveDiags + scoreDiags + unusedDiags;
    AppendFive(log, nameDiags, descriptionDiags, objectiveDiags, scoreDiags, unusedDiags);
  }

  // ---------------------------------------------------------------------
  // Document-level checks

  /** The language of every string list, in order. */
  function Languages(lists: seq<StringList>): seq<string> {
    if lists == [] then [] else Languages(lists[..|lists| - 1]) + [lists[|lists| - 1].language]
  }

  function LanguageTwiceDiags(repeated: seq<string>): seq<Diagnostic> {
    if repeated == [] then []
    else LanguageTwiceDiags(repeated[..|repeated| - 1]) + [LanguageTwice(repeated[|repeated| - 1])]
  }

  lemma LanguageTwiceStep(repeated: seq<string>, language: string)
    ensures LanguageTwiceDiags(repeated + [language]) == LanguageTwiceDiags(repeated) + [LanguageTwice(language)]
  {
    assert (repeated + [language])[..|repeated|] == repeated;
  }

  /** One `LanguageTwice` per language declared by more than one list, in order of first declaration. */
  function DoubleLanguageDiags(lists: seq<StringList>): seq<Diagnostic> {
    var counts := Tally(Languages(lists));
    LanguageTwiceDiags(RepeatedKeys(counts.keys, counts.entries))
  }

  /** The counting loop of `checkDoubleLanguages`: how many lists declare each language, in order of first declaration. */
  method TallyLanguages(lists: seq<StringList>) returns (counts: Dict<nat>)
    ensures counts == Tally(Languages(lists))
  {
    counts := EmptyDict();
    for i := 0 to |lists|
      invariant counts == Tally(Languages(lists[..i]))
    {
      assert lists[..i + 1][..i] == lists[..i];
      var language := lists[i].language;
      counts := counts.Put(language, if language in counts.entries then counts.entries[language] + 1 else 1);
    }
    assert lists[..|lists|] == lists;
  }

  /** The reporting loop of `checkDoubleLanguages`: one error per language counted more than once. */
  method ReportRepeatedLanguages(counts: Dict<nat>, out: Diagnostics)
    modifies out
    ensures out.log == old(out.log) + LanguageTwiceDiags(RepeatedKeys(counts.keys, counts.entries))
  {
    ghost var log := out.log;
    for k := 0 to |counts.keys|
      invariant out.log == log + LanguageTwiceDiags(RepeatedKeys(counts.keys[..k], counts.entries))
    {
      assert counts.keys[..k + 1][..k] == counts.keys[..k];
      var language := counts.keys[k];
      ghost var before := RepeatedKeys(counts.keys[..k], counts.entries);
      if language in counts.entries && counts.entries[language] > 1 {
        assert RepeatedKeys(counts.keys[..k + 1], counts.entries) == before + [language];
        out.Error(LanguageTwice(language));
        LanguageTwiceStep(before, language);
        AppendAssoc(log, LanguageTwiceDiags(before), [LanguageTwice(language)]);
      } else {
        assert RepeatedKeys(counts.keys[..k + 1], counts.entries) == before;
      }
    }
    assert counts.keys[..|counts.keys|] == counts.keys;
  }

  /** `checkDoubleLanguages`: counts the lists per language, then reports every language counted more than once. */
  method CheckDoubleLanguages(challenge: ChallengeModel, out: Diagnostics)
    modifies out
    ensures out.log == old(out.log) + DoubleLanguageDiags(challenge.stringLists)
  {
    var counts := TallyLanguages(challenge.stringLists);
    ReportRepeatedLanguages(counts, out);
  }

  /** The diagnostics of a check that looks at each string list on its own, list after list. */
  function PerList(lists: seq<StringList>, check: StringList -> seq<Diagnostic>): seq<Diagnostic> {
    if lists == [] then [] else PerList(lists[..|lists| - 1], check) + check(lists[|lists| - 1])
  }

  /** One `StringTwice` per id listed in `ids`, in order, that `list` defines more than once. */
  function DoubleStringsIn(list: StringList, ids: seq<string>): seq<Diagnostic> {
    if ids == [] then []
    else
      var n := |ids| - 1;
      var id := ids[n];
      DoubleStringsIn(list, ids[..n])
      + (if id in list.strings.entries && list.strings.entries[id].count > 1 then [StringTwice(id, list.language)] else [])
  }

  function DoubleStrings(list: StringList): seq<Diagnostic> {
    DoubleStringsIn(list, list.strings.keys)
  }

  /** One `StringUnused` per id listed in `ids`, in order, that is not static and that no lookup marked used. */
  function UnusedStringsIn(list: StringList, ids: seq<string>): seq<Diagnostic> {
    if ids == [] then []
    else
      var n := |ids| - 1;
      var id := ids[n];
      UnusedStringsIn(list, ids[..n])
      + (if id !in StaticStrings && id in list.strings.entries && !list.strings.entries[id].used
         then [StringUnused(id, list.language)] else [])
  }

  function UnusedStrings(list: StringList): seq<Diagnostic> {
    UnusedStringsIn(list, list.strings.keys)
  }

  /** One `StaticStringMissing` per static string listed in `names`, in order, that `list` does not define. */
  function MissingStaticIn(list: StringList, names: seq<string>): seq<Diagnostic> {
    if names == [] then []
    else
      var n := |names| - 1;
      MissingStaticIn(list, names[..n])
      + (if names[n] !in list.strings.entries then [StaticStringMissing(names[n], list.language)] else [])
  }

  function MissingStatic(list: StringList): seq<Diagnostic> {
    MissingStaticIn(list, StaticStrings)
  }

  lemma PerListStep(lists: seq<StringList>, i: nat, check: StringList -> seq<Diagnostic>)
    requires i < |lists|
    ensures PerList(lists[..i + 1], check) == PerList(lists[..i], check) + check(lists[i])
  {
    assert lists[..i + 1][..i] == lists[..i];
  }

  /** The inner loop of `checkDoubleStrings` over the ids of one list. */
  method ReportDoubleStrings(list: StringList, out: Diagnostics)
    modifies out
    ensures out.log == old(out.log) + DoubleStrings(list)
  {
    ghost var log := out.log;
    var ids := list.strings.keys;
    for k := 0 to |ids|
      invariant out.log == log + DoubleStringsIn(list, ids[..k])
    {
      assert ids[..k + 1][..k] == ids[..k];
      var id := ids[k];
      if id in list.strings.entries && list.strings.entries[id].count > 1 {
        out.Error(StringTwice(id, list.language));
        AppendAssoc(log, DoubleStringsIn(list, ids[..k]), [StringTwice(id, list.language)]);
      }
    }
    assert ids[..|ids|] == ids;
  }

  /** `checkDoubleStrings`: reports, list by list, every string defined more than once. */
  method CheckDoubleStrings(challenge: ChallengeModel, out: Diagnostics)
    modifies out
    ensures out.log == old(out.log) + PerList(challenge.stringLists, DoubleStrings)
  {
    var lists := challenge.stringLists;
    ghost var log := out.log;
    for i := 0 to |lists|
      invariant out.log == log + PerList(lists[..i], DoubleStrings)
    {
      PerListStep(lists, i, DoubleStrings);
      ReportDoubleStrings(lists[i], out);
      AppendAssoc(log, PerList(lists[..i], DoubleStrings), DoubleStrings(lists[i]));
    }
    assert lists[..|lists|] == lists;
  }

  /** The inner loop of `checkUnusedStrings` over the ids of one list. */
  method ReportUnusedStrings(list: StringList, out: Diagnostics)
    modifies out
    ensures out.log == old(out.log) + UnusedStrings(list)
  {
    ghost var log := out.log;
    var ids := list.strings.keys;
    for k := 0 to |ids|
      invariant out.log == log + UnusedStringsIn(list, ids[..k])
    {
      assert ids[..k + 1][..k] == ids[..k];
      var id := ids[k];
      if id in StaticStrings {
        // Static strings need not be referred to.
      } else if id in list.strings.entries && !list.strings.entries[id].used {
        out.Error(StringUnused(id, list.language));
        AppendAssoc(log, UnusedStringsIn(list, ids[..k]), [StringUnused(id, list.language)]);
      }
    }
    assert ids[..|ids|] == ids;
  }

  /** `checkUnusedStrings`: reports, list by list, every non-static string no lookup marked used. */
  method CheckUnusedStrings(challenge: ChallengeModel, out: Diagnostics)
    modifies out
    ensures out.log == old(out.log) + PerList(challenge.stringLists, UnusedStrings)
  {
    var lists := challenge.stringLists;
    ghost var log := out.log;
    for i := 0 to |lists|
      invariant out.log == log + PerList(lists[..i], UnusedStrings)
    {
      PerListStep(lists, i, UnusedStrings);
      ReportUnusedStrings(lists[i], out);
      AppendAssoc(log, PerList(lists[..i], UnusedStrings), UnusedStrings(lists[i]));
    }
    assert lists[..|lists|] == lists;
  }

  /** The inner loop of `checkStaticStrings` over the static strings, for one list. */
  method ReportMissingStatic(list: StringList, out: Diagnostics)
    modifies out
    ensures out.log == old(out.log) + MissingStatic(list)
  {
    ghost var log := out.log;
    for k := 0 to |StaticStrings|
      invariant out.log == log + MissingStaticIn(list, StaticStrings[..k])
    {
      assert StaticStrings[..k + 1][..k] == StaticStrings[..k];
      var name := StaticStrings[k];
      if name !in list.strings.entries {
        out.Error(StaticStringMissing(name, list.language));
        AppendAssoc(log, MissingStaticIn(list, StaticStrings[..k]), [StaticStringMissing(name, list.language)]);
      }
    }
    assert StaticStrings[..|StaticStrings|] == StaticStrings;
  }

  /** `checkStaticStrings`: reports, list by list, every static string the list does not define. */
  method CheckStaticStrings(challenge: ChallengeModel, out: Diagnostics)
    modifies out
    ensures out.log == old(out.log) + PerList(challenge.stringLists, MissingStatic)
  {
    var lists := challenge.stringLists;
    ghost var log := out.log;
    for i := 0 to |lists|
      invariant out.log == log + PerList(lists[..i], MissingStatic)
    {
      PerListStep(lists, i, MissingStatic);
      ReportMissingStatic(lists[i], out);
      AppendAssoc(log, PerList(lists[..i], MissingStatic), MissingStatic(lists[i]));
    }
    assert lists[..|lists|] == lists;
  }

  /** `checkPercentageMissions`: one error when more than one mission scores by percentage. */
  method CheckPercentageMissions(count: nat, out: Diagnostics)
    modifies out
    ensures count > 1 ==> out.log == old(out.log) + [TooManyPercentageMissions]
    ensures count <= 1 ==> out.log == old(out.log)
  {
    if count > 1 {
      out.Error(TooManyPercentageMissions);
    }
  }
}
