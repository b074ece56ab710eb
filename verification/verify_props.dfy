/**
 * What the verifier's reports mean: for every check, exactly which inputs
 * draw which diagnostic, and for a score table that draws none, that its
 * cases cover every combination of legal values exactly once.
 */
module VerifyProperties {
  import opened Collections
  import opened Text
  import opened Types
  import opened VerifyUtil
  import opened Model
  import opened Verify

  // ---------------------------------------------------------------------
  // String lookups

  lemma {:induction false} UnknownStringMember(lists: seq<StringList>, field: Field, key: string, d: Diagnostic)
    ensures d in UnknownStringDiags(lists, field, key) <==>
      exists i :: 0 <= i < |lists| && key !in lists[i].strings.entries && d == UnknownString(field, key, lists[i].language)
  {
    if lists != [] {
      var n := |lists| - 1;
      var front := lists[..n];
      UnknownStringMember(front, field, key, d);
      if d in UnknownStringDiags(front, field, key) {
        var i :| 0 <= i < |front| && key !in front[i].strings.entries && d == UnknownString(field, key, front[i].language);
        assert lists[i] == front[i];
      }
      if exists i :: 0 <= i < |lists| && key !in lists[i].strings.entries && d == UnknownString(field, key, lists[i].language) {
        var i :| 0 <= i < |lists| && key !in lists[i].strings.entries && d == UnknownString(field, key, lists[i].language);
        if i < n {
          assert front[i] == lists[i];
        }
      }
    }
  }

  /** The positions of the lists that do not define `key`. */
  function Lacking(lists: seq<StringList>, key: string): set<int> {
    set i | 0 <= i < |lists| && key !in lists[i].strings.entries
  }

  /** A lookup reports exactly as many errors as there are lists lacking the key, so at most one per list. */
  lemma {:induction false} UnknownStringLength(lists: seq<StringList>, field: Field, key: string)
    ensures |UnknownStringDiags(lists, field, key)| == |Lacking(lists, key)|
    ensures |UnknownStringDiags(lists, field, key)| <= |lists|
  {
    if lists != [] {
      var n := |lists| - 1;
      var front := lists[..n];
      UnknownStringLength(front, field, key);
      var a, b := Lacking(front, key), Lacking(lists, key);
      assert forall i :: 0 <= i < n ==> lists[i] == front[i];
      if key in lists[n].strings.entries {
        assert b == a;
      } else {
        assert b == a + {n};
      }
    }
  }

  /** A lookup reports the key once for each list, and only the lists, that do not define it. */
  lemma UnknownStringExact(lists: seq<StringList>, field: Field, key: string)
    ensures forall d :: d in UnknownStringDiags(lists, field, key) <==>
      exists i :: 0 <= i < |lists| && key !in lists[i].strings.entries && d == UnknownString(field, key, lists[i].language)
    ensures UnknownStringDiags(lists, field, key) == [] <==> forall i :: 0 <= i < |lists| ==> key in lists[i].strings.entries
    ensures |UnknownStringDiags(lists, field, key)| == |Lacking(lists, key)|
    ensures |UnknownStringDiags(lists, field, key)| <= |lists|
  {
    var diags := UnknownStringDiags(lists, field, key);
    forall d ensures d in diags <==>
      exists i :: 0 <= i < |lists| && key !in lists[i].strings.entries && d == UnknownString(field, key, lists[i].language)
    {
      UnknownStringMember(lists, field, key, d);
    }
    if diags != [] {
      UnknownStringMember(lists, field, key, diags[0]);
    }
    UnknownStringLength(lists, field, key);
  }

  /** A string looked up is marked used in every list that defines it; nothing else is marked. */
  lemma MarkKeysExact(lists: seq<StringList>, keys: seq<string>)
    ensures |MarkKeys(lists, keys)| == |lists|
    ensures forall i :: 0 <= i < |lists| ==>
      MarkKeys(lists, keys)[i].language == lists[i].language
      && MarkKeys(lists, keys)[i].strings.keys == lists[i].strings.keys
      && (forall id :: id in MarkKeys(lists, keys)[i].strings.entries <==> id in lists[i].strings.entries)
      && (forall id :: id in lists[i].strings.entries ==>
            MarkKeys(lists, keys)[i].strings.entries[id].used == (lists[i].strings.entries[id].used || id in keys)
            && MarkKeys(lists, keys)[i].strings.entries[id].count == lists[i].strings.entries[id].count)
  {
  }

  // ---------------------------------------------------------------------
  // Default values

  /**
   * A default is reported exactly when it is present and not one of the
   * objective's legal values; an objective without a default is never
   * reported. A number range must not be empty for this: with `min > max`
   * the legal values are `[min]`, yet every default is reported.
   */
  lemma DefaultAcceptedIffLegal(o: Objective)
    requires o.kind.Number? ==> o.kind.min <= o.kind.max
    requires o.kind.Enum? ==> o.kind.options.Valid()
    ensures DefaultDiags(o) == [] <==> (DefaultText(o).Some? ==> DefaultText(o).value in Domain(o))
    ensures DefaultDiags(o) != [] ==> DefaultText(o).Some? && DefaultDiags(o) == [DefaultOutOfRange(DefaultText(o).value, o.id)]
  {
    match o.kind
    case Number(min, max, d) =>
      if d.Some? {
        NumberRangeMember(min, max, d.value);
      }
    case YesNo(d) =>
    case Enum(options, d) =>
  }

  // ---------------------------------------------------------------------
  // Indexes

  lemma {:induction false} AllKnownIff(domains: map<string, seq<string>>, indexes: seq<string>)
    ensures AllKnown(domains, indexes) <==> forall i :: 0 <= i < |indexes| ==> indexes[i] in domains
  {
    if indexes != [] {
      var n := |indexes| - 1;
      AllKnownIff(domains, indexes[..n]);
      assert forall i :: 0 <= i < n ==> indexes[..n][i] == indexes[i];
    }
  }

  /** Each index that names no objective is reported, and nothing else. */
  lemma {:induction false} IndexDiagsExact(domains: map<string, seq<string>>, indexes: seq<string>)
    ensures forall d :: d in IndexDiags(domains, indexes) <==> d.IndexNotFound? && d.index in indexes && d.index !in domains
    ensures IndexDiags(domains, indexes) == [] <==> AllKnown(domains, indexes)
  {
    if indexes != [] {
      var n := |indexes| - 1;
      var front := indexes[..n];
      IndexDiagsExact(domains, front);
      var last := if indexes[n] in domains then [] else [IndexNotFound(indexes[n])];
      assert IndexDiags(domains, indexes) == IndexDiags(domains, front) + last;
      forall d ensures d in IndexDiags(domains, indexes) <==> d.IndexNotFound? && d.index in indexes && d.index !in domains {
        assert d.IndexNotFound? && d.index in indexes ==> d.index in front || d.index == indexes[n] by {
          assert indexes == front + [indexes[n]];
        }
      }
    }
  }

  lemma {:induction false} KnownOccurrences(domains: map<string, seq<string>>, indexes: seq<string>, x: string)
    ensures Occurrences(KnownIndexes(domains, indexes), x) == if x in domains then Occurrences(indexes, x) else 0
  {
    if indexes != [] {
      var n := |indexes| - 1;
      KnownOccurrences(domains, indexes[..n], x);
      OccurrencesAppend(KnownIndexes(domains, indexes[..n]), if indexes[n] in domains then [indexes[n]] else [], x);
    }
  }

  lemma {:induction false} OccurrencesAppend<T>(a: seq<T>, b: seq<T>, x: T)
    ensures Occurrences(a + b, x) == Occurrences(a, x) + Occurrences(b, x)
  {
    if b != [] {
      var n := |b| - 1;
      OccurrencesAppend(a, b[..n], x);
      assert (a + b)[..|a + b| - 1] == a + b[..n];
    } else {
      assert a + b == a;
    }
  }

  lemma {:induction false} UsedTwiceDiagsExact(repeated: seq<string>)
    ensures forall d :: d in UsedTwiceDiags(repeated) <==> d.IndexUsedTwice? && d.objective in repeated
    ensures Distinct(repeated) ==> Distinct(UsedTwiceDiags(repeated))
  {
    if repeated != [] {
      var n := |repeated| - 1;
      UsedTwiceDiagsExact(repeated[..n]);
      assert repeated == repeated[..n] + [repeated[n]];
      if Distinct(repeated) {
        assert repeated[n] !in repeated[..n];
        DistinctConcat(UsedTwiceDiags(repeated[..n]), [IndexUsedTwice(repeated[n])]);
      }
    }
  }

  /**
   * Each objective named more than once in one index list is reported, once;
   * an unknown index is never reported as repeated.
   */
  lemma DuplicateIndexExact(domains: map<string, seq<string>>, indexes: seq<string>)
    ensures forall d :: d in DuplicateIndexDiags(domains, indexes) <==>
      d.IndexUsedTwice? && d.objective in domains && Occurrences(indexes, d.objective) > 1
    ensures Distinct(DuplicateIndexDiags(domains, indexes))
    ensures DuplicateIndexDiags(domains, indexes) == [] <==>
      forall x :: x in domains ==> Occurrences(indexes, x) <= 1
  {
    var known := KnownIndexes(domains, indexes);
    RepeatedInTally(known);
    forall x ensures Occurrences(known, x) == if x in domains then Occurrences(indexes, x) else 0 {
      KnownOccurrences(domains, indexes, x);
    }
    var repeated := RepeatedKeys(Tally(known).keys, Tally(known).entries);
    UsedTwiceDiagsExact(repeated);
    var diags := DuplicateIndexDiags(domains, indexes);
    if diags != [] {
      assert diags[0] in diags;
      assert diags[0].objective in domains && Occurrences(indexes, diags[0].objective) > 1;
    }
  }

  // ---------------------------------------------------------------------
  // Cases

  lemma {:induction false} ValuesOkIff(domains: map<string, seq<string>>, indexes: seq<string>, refs: seq<string>)
    requires |refs| == |indexes|
    ensures ValuesOk(domains, indexes, refs) <==>
      forall k :: 0 <= k < |refs| && indexes[k] in domains ==> refs[k] in domains[indexes[k]]
  {
    if refs != [] {
      var n := |refs| - 1;
      ValuesOkIff(domains, indexes[..n], refs[..n]);
      assert forall k :: 0 <= k < n ==> indexes[..n][k] == indexes[k] && refs[..n][k] == refs[k];
    }
  }

  /** Each position whose value is not legal for its known objective is reported, and nothing else. */
  lemma {:induction false} ValueDiagsExact(domains: map<string, seq<string>>, indexes: seq<string>, refs: seq<string>)
    requires |refs| == |indexes|
    ensures forall d :: d in ValueDiags(domains, indexes, refs) ==> d.ValueOutOfRange?
    ensures forall k :: 0 <= k < |refs| && indexes[k] in domains && refs[k] !in domains[indexes[k]] ==>
      ValueOutOfRange(refs[k], indexes[k]) in ValueDiags(domains, indexes, refs)
    ensures forall v, x :: ValueOutOfRange(v, x) in ValueDiags(domains, indexes, refs) ==>
      exists k :: 0 <= k < |refs| && indexes[k] == x && refs[k] == v && x in domains && v !in domains[x]
    ensures ValueDiags(domains, indexes, refs) == [] <==> ValuesOk(domains, indexes, refs)
  {
    if refs != [] {
      var n := |refs| - 1;
      var fi, fr := indexes[..n], refs[..n];
      ValueDiagsExact(domains, fi, fr);
      var diags := ValueDiags(domains, indexes, refs);
      var front := ValueDiags(domains, fi, fr);
      var last := if indexes[n] in domains && refs[n] !in domains[indexes[n]] then [ValueOutOfRange(refs[n], indexes[n])] else [];
      assert diags == front + last;
      forall k | 0 <= k < |refs| && indexes[k] in domains && refs[k] !in domains[indexes[k]]
        ensures ValueOutOfRange(refs[k], indexes[k]) in diags
      {
        if k < n {
          assert fi[k] == indexes[k] && fr[k] == refs[k];
        }
      }
      forall v, x | ValueOutOfRange(v, x) in diags
        ensures exists k :: 0 <= k < |refs| && indexes[k] == x && refs[k] == v && x in domains && v !in domains[x]
      {
        if ValueOutOfRange(v, x) in front {
          var k :| 0 <= k < |fr| && fi[k] == x && fr[k] == v && x in domains && v !in domains[x];
          assert indexes[k] == x && refs[k] == v;
        } else {
          assert indexes[n] == x && refs[n] == v;
        }
      }
    }
  }

  /** A case draws no shape diagnostic exactly when it passes its shape check. */
  lemma ShapeDiagsEmpty(domains: map<string, seq<string>>, indexes: seq<string>, refs: seq<string>)
    ensures ShapeDiags(domains, indexes, refs) == [] <==> CaseOk(domains, indexes, refs)
    ensures |refs| != |indexes| ==> ShapeDiags(domains, indexes, refs) == [IndexRefCountMismatch]
  {
    if |refs| == |indexes| {
      ValueDiagsExact(domains, indexes, refs);
    }
  }

  lemma {:induction false} CasesOkIff(domains: map<string, seq<string>>, indexes: seq<string>, cases: seq<Case>)
    ensures CasesOk(domains, indexes, cases) <==> forall k :: 0 <= k < |cases| ==> CaseOk(domains, indexes, cases[k].indexRefs)
  {
    if cases != [] {
      var n := |cases| - 1;
      CasesOkIff(domains, indexes, cases[..n]);
      assert forall k :: 0 <= k < n ==> cases[..n][k] == cases[k];
    }
  }

  /** Every error message a case names is defined in every list. */
  ghost predicate ErrorsDefined(cases: seq<Case>, lists: seq<StringList>) {
    forall k, i :: 0 <= k < |cases| && cases[k].error.Some? && 0 <= i < |lists| ==> cases[k].error.value in lists[i].strings.entries
  }

  /** The case checks draw nothing exactly when every case passes its shape check and names only defined messages. */
  lemma {:induction false} CasesDiagsEmpty(domains: map<string, seq<string>>, indexes: seq<string>, cases: seq<Case>, lists: seq<StringList>)
    ensures CasesDiags(domains, indexes, cases, lists) == [] <==> CasesOk(domains, indexes, cases) && ErrorsDefined(cases, lists)
  {
    if cases != [] {
      var n := |cases| - 1;
      var front := cases[..n];
      CasesDiagsEmpty(domains, indexes, front, lists);
      ShapeDiagsEmpty(domains, indexes, cases[n].indexRefs);
      ErrorsDefinedStep(cases, lists);
    }
  }

  lemma ErrorsDefinedStep(cases: seq<Case>, lists: seq<StringList>)
    requires cases != []
    ensures ErrorsDefined(cases, lists) <==>
      ErrorsDefined(cases[..|cases| - 1], lists) && ErrorDiags(cases[|cases| - 1], lists) == []
  {
    var n := |cases| - 1;
    var front := cases[..n];
    if cases[n].error.Some? {
      UnknownStringExact(lists, ErrorField, cases[n].error.value);
    }
    assert forall k :: 0 <= k < n ==> front[k] == cases[k];
    if ErrorsDefined(cases, lists) {
      assert ErrorsDefined(front, lists);
    }
    if ErrorsDefined(front, lists) && ErrorDiags(cases[n], lists) == [] {
      assert ErrorsDefined(cases, lists);
    }
  }

  // ---------------------------------------------------------------------
  // Coverage

  /**
   * The coverage check reports a combination matched by no case as such, a
   * combination matched by several cases with their number, and nothing else.
   */
  lemma {:induction false} CoverageDiagsExact(indexes: seq<string>, combos: seq<Tuple>, cases: seq<Case>)
    ensures forall d :: d in CoverageDiags(indexes, combos, cases) ==>
      (d.NoCaseFound? || d.CasesFound?) && d.indexes == indexes && d.values in combos
    ensures forall t :: t in combos && MatchCount(t, cases) == 0 ==> NoCaseFound(indexes, t) in CoverageDiags(indexes, combos, cases)
    ensures forall t :: t in combos && MatchCount(t, cases) > 1 ==>
      CasesFound(MatchCount(t, cases), indexes, t) in CoverageDiags(indexes, combos, cases)
    ensures forall t :: NoCaseFound(indexes, t) in CoverageDiags(indexes, combos, cases) ==> MatchCount(t, cases) == 0
    ensures forall n, t :: CasesFound(n, indexes, t) in CoverageDiags(indexes, combos, cases) ==> n == MatchCount(t, cases) > 1
  {
    if combos != [] {
      var n := |combos| - 1;
      var front := combos[..n];
      CoverageDiagsExact(indexes, front, cases);
      assert combos == front + [combos[n]];
      forall t | t in combos && MatchCount(t, cases) == 0 ensures NoCaseFound(indexes, t) in CoverageDiags(indexes, combos, cases) {
        if t != combos[n] {
          assert t in front;
        }
      }
      forall t | t in combos && MatchCount(t, cases) > 1
        ensures CasesFound(MatchCount(t, cases), indexes, t) in CoverageDiags(indexes, combos, cases)
      {
        if t != combos[n] {
          assert t in front;
        }
      }
    }
  }

  /** The coverage check draws nothing exactly when every combination is matched by exactly one case. */
  lemma CoverageDiagsEmpty(indexes: seq<string>, combos: seq<Tuple>, cases: seq<Case>)
    ensures CoverageDiags(indexes, combos, cases) == [] <==> forall t :: t in combos ==> MatchCount(t, cases) == 1
  {
    CoverageDiagsExact(indexes, combos, cases);
    var diags := CoverageDiags(indexes, combos, cases);
    if diags != [] {
      assert diags[0] in diags;
      var t := diags[0].values;
      assert MatchCount(t, cases) != 1;
    }
  }

  /** The values of every case, in order. */
  function CaseRefs(cases: seq<Case>): seq<Tuple> {
    seq(|cases|, k requires 0 <= k < |cases| => cases[k].indexRefs)
  }

  /** When every case has as many values as `t`, the cases `t` matches are those whose values are `t`. */
  lemma {:induction false} MatchCountExact(t: Tuple, cases: seq<Case>)
    requires forall k :: 0 <= k < |cases| ==> |cases[k].indexRefs| == |t|
    ensures MatchCount(t, cases) == Occurrences(CaseRefs(cases), t)
  {
    if cases != [] {
      var n := |cases| - 1;
      MatchCountExact(t, cases[..n]);
      assert CaseRefs(cases)[..n] == CaseRefs(cases[..n]);
      assert t <= cases[n].indexRefs <==> t == cases[n].indexRefs;
    }
  }

  /** `t` gives every index a legal value of the objective it names. */
  ghost predicate Assignment(domains: map<string, seq<string>>, indexes: seq<string>, t: Tuple) {
    |t| == |indexes| && forall k :: 0 <= k < |t| ==> indexes[k] in domains && t[k] in domains[indexes[k]]
  }

  lemma {:induction false} IndexDomainsKnown(domains: map<string, seq<string>>, indexes: seq<string>)
    requires AllKnown(domains, indexes)
    ensures |IndexDomains(domains, indexes)| == |indexes|
    ensures forall k :: 0 <= k < |indexes| ==> indexes[k] in domains && IndexDomains(domains, indexes)[k] == domains[indexes[k]]
  {
    if indexes != [] {
      var n := |indexes| - 1;
      IndexDomainsKnown(domains, indexes[..n]);
      assert forall k :: 0 <= k < n ==> indexes[..n][k] == indexes[k];
    }
  }

  /** With every index known, the generated combinations are exactly the assignments. */
  lemma CombinationsAreAssignments(domains: map<string, seq<string>>, indexes: seq<string>)
    requires AllKnown(domains, indexes) && |indexes| > 0
    requires NonEmptyDomains(IndexDomains(domains, indexes))
    ensures forall t :: t in Combinations(IndexDomains(domains, indexes)) <==> Assignment(domains, indexes, t)
  {
    IndexDomainsKnown(domains, indexes);
    CombinationsExact(IndexDomains(domains, indexes));
  }

  /**
   * A score table that draws no diagnostic is an exact cover: its indexes
   * name distinct objectives, every case is an assignment of legal values,
   * and every assignment is the values of exactly one case. The domains of
   * the indexed objectives must not be empty, and there must be an index.
   */
  lemma CleanScoreIsExactCover(domains: map<string, seq<string>>, score: Score, lists: seq<StringList>)
    requires ScoreDiags(domains, score, lists) == []
    requires |score.indexes| > 0 && NonEmptyDomains(IndexDomains(domains, score.indexes))
    ensures forall k :: 0 <= k < |score.indexes| ==> score.indexes[k] in domains
    ensures forall x :: Occurrences(score.indexes, x) <= 1
    ensures forall k :: 0 <= k < |score.cases| ==> Assignment(domains, score.indexes, score.cases[k].indexRefs)
    ensures forall t :: Assignment(domains, score.indexes, t) ==> Occurrences(CaseRefs(score.cases), t) == 1
    ensures ErrorsDefined(score.cases, lists)
  {
    var indexes, cases := score.indexes, score.cases;
    IndexDiagsExact(domains, indexes);
    AllKnownIff(domains, indexes);
    DuplicateIndexExact(domains, indexes);
    forall x ensures Occurrences(indexes, x) <= 1 {
      OccurrencesPositive(indexes, x);
    }
    CasesDiagsEmpty(domains, indexes, cases, lists);
    CasesOkIff(domains, indexes, cases);
    forall k | 0 <= k < |cases| ensures Assignment(domains, indexes, cases[k].indexRefs) {
      ValuesOkIff(domains, indexes, cases[k].indexRefs);
    }
    var combos := Combinations(IndexDomains(domains, indexes));
    CoverageDiagsEmpty(indexes, combos, cases);
    CombinationsAreAssignments(domains, indexes);
    forall t | Assignment(domains, indexes, t) ensures Occurrences(CaseRefs(cases), t) == 1 {
      MatchCountExact(t, cases);
    }
  }

  /**
   * Conversely, a score table whose indexes name distinct objectives, whose
   * cases are assignments naming defined error messages, and in which every
   * assignment is the values of exactly one case, draws no diagnostic.
   */
  lemma ExactCoverIsClean(domains: map<string, seq<string>>, score: Score, lists: seq<StringList>)
    requires |score.indexes| > 0 && NonEmptyDomains(IndexDomains(domains, score.indexes))
    requires forall k :: 0 <= k < |score.indexes| ==> score.indexes[k] in domains
    requires forall x :: Occurrences(score.indexes, x) <= 1
    requires forall k :: 0 <= k < |score.cases| ==> Assignment(domains, score.indexes, score.cases[k].indexRefs)
    requires forall t :: Assignment(domains, score.indexes, t) ==> Occurrences(CaseRefs(score.cases), t) == 1
    requires ErrorsDefined(score.cases, lists)
    ensures ScoreDiags(domains, score, lists) == []
  {
    var indexes, cases := score.indexes, score.cases;
    IndexDiagsExact(domains, indexes);
    AllKnownIff(domains, indexes);
    DuplicateIndexExact(domains, indexes);
    forall k | 0 <= k < |cases| ensures CaseOk(domains, indexes, cases[k].indexRefs) {
      ValuesOkIff(domains, indexes, cases[k].indexRefs);
    }
    CasesOkIff(domains, indexes, cases);
    CasesDiagsEmpty(domains, indexes, cases, lists);
    var combos := Combinations(IndexDomains(domains, indexes));
    CombinationsAreAssignments(domains, indexes);
    forall t | t in combos ensures MatchCount(t, cases) == 1 {
      MatchCountExact(t, cases);
    }
    CoverageDiagsEmpty(indexes, combos, cases);
  }

  // ---------------------------------------------------------------------
  // Missions

  lemma {:induction false} AllIndexesMember(scores: seq<Score>, x: string)
    ensures x in AllIndexes(scores) <==> exists k :: 0 <= k < |scores| && x in scores[k].indexes
  {
    if scores != [] {
      var n := |scores| - 1;
      AllIndexesMember(scores[..n], x);
      assert forall k :: 0 <= k < n ==> scores[..n][k] == scores[k];
    }
  }

  /** Each objective listed in `ids` and not marked used is reported, and nothing else; once each when `ids` is distinct. */
  lemma {:induction false} UnusedDiagsExact(objs: Dict<Objective>, ids: seq<string>)
    ensures forall d :: d in UnusedDiags(objs, ids) <==>
      d.ObjectiveNotUsed? && d.objective in ids && d.objective in objs.entries && !objs.entries[d.objective].used
    ensures Distinct(ids) ==> Distinct(UnusedDiags(objs, ids))
  {
    if ids != [] {
      var n := |ids| - 1;
      var front := ids[..n];
      UnusedDiagsExact(objs, front);
      assert ids == front + [ids[n]];
      if Distinct(ids) {
        assert Distinct(front);
        assert ids[n] !in front;
        var last := if ids[n] in objs.entries && !objs.entries[ids[n]].used then [ObjectiveNotUsed(ids[n])] else [];
        DistinctConcat(UnusedDiags(objs, front), last);
      }
    }
  }

  /**
   * After all of a mission's scores, the objectives reported as unused are
   * exactly those no score's index list names, each reported once.
   */
  lemma MissionUnusedExact(m: DocMission)
    ensures forall d :: d in UnusedDiags(MarkObjectives(ObjectivesOf(m), AllIndexes(ScoresOf(m))), ObjectivesOf(m).keys) <==>
      d.ObjectiveNotUsed? && d.objective in ObjectivesOf(m).entries
      && !exists k :: 0 <= k < |m.scores| && d.objective in ScoresOf(m)[k].indexes
    ensures Distinct(UnusedDiags(MarkObjectives(ObjectivesOf(m), AllIndexes(ScoresOf(m))), ObjectivesOf(m).keys))
  {
    var objs := ObjectivesOf(m);
    var marked := MarkObjectives(objs, AllIndexes(ScoresOf(m)));
    MissionObjectives(m);
    UnusedDiagsExact(marked, objs.keys);
    forall x ensures x in AllIndexes(ScoresOf(m)) <==> exists k :: 0 <= k < |m.scores| && x in ScoresOf(m)[k].indexes {
      AllIndexesMember(ScoresOf(m), x);
    }
  }

  // ---------------------------------------------------------------------
  // Document-level checks

  lemma {:induction false} LanguageTwiceDiagsExact(repeated: seq<string>)
    ensures forall d :: d in LanguageTwiceDiags(repeated) <==> d.LanguageTwice? && d.language in repeated
    ensures Distinct(repeated) ==> Distinct(LanguageTwiceDiags(repeated))
  {
    if repeated != [] {
      var n := |repeated| - 1;
      LanguageTwiceDiagsExact(repeated[..n]);
      assert repeated == repeated[..n] + [repeated[n]];
      if Distinct(repeated) {
        assert repeated[n] !in repeated[..n];
        DistinctConcat(LanguageTwiceDiags(repeated[..n]), [LanguageTwice(repeated[n])]);
      }
    }
  }

  /** Each language declared by more than one list is reported, once, and nothing else. */
  lemma DoubleLanguagesExact(lists: seq<StringList>)
    ensures forall d :: d in DoubleLanguageDiags(lists) <==> d.LanguageTwice? && Occurrences(Languages(lists), d.language) > 1
    ensures Distinct(DoubleLanguageDiags(lists))
  {
    var languages := Languages(lists);
    RepeatedInTally(languages);
    LanguageTwiceDiagsExact(RepeatedKeys(Tally(languages).keys, Tally(languages).entries));
  }

  lemma {:induction false} PerListMember(lists: seq<StringList>, check: StringList -> seq<Diagnostic>, d: Diagnostic)
    ensures d in PerList(lists, check) <==> exists i :: 0 <= i < |lists| && d in check(lists[i])
  {
    if lists != [] {
      var n := |lists| - 1;
      PerListMember(lists[..n], check, d);
      assert forall i :: 0 <= i < n ==> lists[..n][i] == lists[i];
    }
  }

  lemma {:induction false} DoubleStringsInExact(list: StringList, ids: seq<string>)
    ensures forall d :: d in DoubleStringsIn(list, ids) <==>
      d.StringTwice? && d.language == list.language && d.id in ids
      && d.id in list.strings.entries && list.strings.entries[d.id].count > 1
  {
    if ids != [] {
      var n := |ids| - 1;
      DoubleStringsInExact(list, ids[..n]);
      assert ids == ids[..n] + [ids[n]];
    }
  }

  /** Each string a list defines more than once is reported, with that list's language, and nothing else. */
  lemma DoubleStringsExact(lists: seq<StringList>)
    requires forall i :: 0 <= i < |lists| ==> lists[i].strings.Valid()
    ensures forall d :: d in PerList(lists, DoubleStrings) <==>
      d.StringTwice? && (exists i :: 0 <= i < |lists| && lists[i].language == d.language
                           && d.id in lists[i].strings.entries && lists[i].strings.entries[d.id].count > 1)
  {
    forall d ensures d in PerList(lists, DoubleStrings) <==>
      d.StringTwice? && (exists i :: 0 <= i < |lists| && lists[i].language == d.language
                           && d.id in lists[i].strings.entries && lists[i].strings.entries[d.id].count > 1)
    {
      PerListMember(lists, DoubleStrings, d);
      forall i | 0 <= i < |lists| {
        DoubleStringsInExact(lists[i], lists[i].strings.keys);
      }
    }
  }

  lemma {:induction false} UnusedStringsInExact(list: StringList, ids: seq<string>)
    ensures forall d :: d in UnusedStringsIn(list, ids) <==>
      d.StringUnused? && d.language == list.language && d.id in ids && d.id !in StaticStrings
      && d.id in list.strings.entries && !list.strings.entries[d.id].used
  {
    if ids != [] {
      var n := |ids| - 1;
      UnusedStringsInExact(list, ids[..n]);
      assert ids == ids[..n] + [ids[n]];
    }
  }

  /**
   * Each string a list defines that no lookup marked used is reported, with
   * that list's language, except "yes" and "no"; nothing else is reported.
   */
  lemma UnusedStringsExact(lists: seq<StringList>)
    requires forall i :: 0 <= i < |lists| ==> lists[i].strings.Valid()
    ensures forall d :: d in PerList(lists, UnusedStrings) <==>
      d.StringUnused? && d.id != "yes" && d.id != "no"
      && (exists i :: 0 <= i < |lists| && lists[i].language == d.language
            && d.id in lists[i].strings.entries && !lists[i].strings.entries[d.id].used)
  {
    forall d ensures d in PerList(lists, UnusedStrings) <==>
      d.StringUnused? && d.id != "yes" && d.id != "no"
      && (exists i :: 0 <= i < |lists| && lists[i].language == d.language
            && d.id in lists[i].strings.entries && !lists[i].strings.entries[d.id].used)
    {
      PerListMember(lists, UnusedStrings, d);
      forall i | 0 <= i < |lists| {
        UnusedStringsInExact(lists[i], lists[i].strings.keys);
      }
    }
  }

  /** A string looked up is not reported as unused afterwards, in any language. */
  lemma MarkedNotUnused(lists: seq<StringList>, keys: seq<string>)
    ensures forall id, language :: id in keys ==> StringUnused(id, language) !in PerList(MarkKeys(lists, keys), UnusedStrings)
  {
    var marked := MarkKeys(lists, keys);
    forall id, language | id in keys ensures StringUnused(id, language) !in PerList(marked, UnusedStrings) {
      var d := StringUnused(id, language);
      PerListMember(marked, UnusedStrings, d);
      if d in PerList(marked, UnusedStrings) {
        var i :| 0 <= i < |marked| && d in UnusedStrings(marked[i]);
        UnusedStringsInExact(marked[i], marked[i].strings.keys);
      }
    }
  }

  lemma {:induction false} MissingStaticInExact(list: StringList, names: seq<string>)
    ensures forall d :: d in MissingStaticIn(list, names) <==>
      d.StaticStringMissing? && d.language == list.language && d.id in names && d.id !in list.strings.entries
    ensures |MissingStaticIn(list, names)| <= |names|
  {
    if names != [] {
      var n := |names| - 1;
      MissingStaticInExact(list, names[..n]);
      assert names == names[..n] + [names[n]];
    }
  }

  /** Each list that does not define "yes", or "no", is reported once for each such string, and nothing else. */
  lemma MissingStaticExact(lists: seq<StringList>)
    ensures forall d :: d in PerList(lists, MissingStatic) <==>
      d.StaticStringMissing? && (d.id == "yes" || d.id == "no")
      && (exists i :: 0 <= i < |lists| && lists[i].language == d.language && d.id !in lists[i].strings.entries)
    ensures forall i :: 0 <= i < |lists| ==>
      |MissingStatic(lists[i])| == (if "yes" in lists[i].strings.entries then 0 else 1) + (if "no" in lists[i].strings.entries then 0 else 1)
  {
    forall d ensures d in PerList(lists, MissingStatic) <==>
      d.StaticStringMissing? && (d.id == "yes" || d.id == "no")
      && (exists i :: 0 <= i < |lists| && lists[i].language == d.language && d.id !in lists[i].strings.entries)
    {
      PerListMember(lists, MissingStatic, d);
      forall i | 0 <= i < |lists| {
        MissingStaticInExact(lists[i], StaticStrings);
      }
    }
    forall i | 0 <= i < |lists| ensures
      |MissingStatic(lists[i])| == (if "yes" in lists[i].strings.entries then 0 else 1) + (if "no" in lists[i].strings.entries then 0 else 1)
    {
      var list := lists[i];
      assert StaticStrings[..1] == ["yes"] && StaticStrings[..1][..0] == [];
      assert MissingStaticIn(list, ["yes"]) == if "yes" in list.strings.entries then [] else [StaticStringMissing("yes", list.language)];
      assert MissingStatic(list) == MissingStaticIn(list, ["yes"])
        + (if "no" in list.strings.entries then [] else [StaticStringMissing("no", list.language)]);
    }
  }
}
