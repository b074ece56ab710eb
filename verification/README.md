# ChallengeValidator scoring-table checks in Dafny

The FIRST LEGO League challenge validator reads a challenge document and
checks it. A challenge holds missions. Each mission has objectives (number,
yes/no and enumeration objectives) and score tables. A score table has an
index list, which names objectives, and cases. Each case gives one value per
index, plus points or an error message. The challenge also has string lists,
one per language. Every name and description in the document is the id of a
string in those lists.

This project models the validator's core:

- **lib/model.js**: builds typed objective, score, case and mission records
  from the decoded document, and loads a string table. This is module
  `Model`.
- **lib/verify-util.js**: lists the legal values of an objective, folds the
  Cartesian product of the index objectives' values, and compares a generated
  combination with a case. This is module `VerifyUtil`.
- **lib/verify.js**: the checks over each mission and over the string lists.
  This is module `Verify`.

Each check appends diagnostics to a log, class `Verify.Diagnostics`. The
log's length is the error count that `error.increase()` keeps. The checks
also set the `used` flags of the strings they look up, in class
`Verify.ChallengeModel`, and of the objectives a score indexes, in class
`Model.MissionModel`.

Every state-changing method is specified by functions of the state it starts
from. Those functions give the exact diagnostics the method appends, in
order, and the marks it leaves. Module `VerifyProperties` proves what those
functions mean. For example:

- a lookup reports exactly the languages that lack a string;
- a repeated index is reported exactly once;
- a score table draws no diagnostic exactly when its cases cover every
  combination of its objectives' values exactly once.

Supporting modules:

- `Collections`: an insertion-ordered dictionary standing in for a JavaScript
  object, plus tallies.
- `Text`: integer-to-string conversion and `String.prototype.trim`, over the
  white space of sections 12.2 and 12.3 of ECMA-262.
- `Types`: the records and the diagnostic kinds.

## Model

| member | source | states |
|---|---|---|
| VerifyUtil.AllValues | lib/verify-util.js:47-66 | The legal values of an objective depend on its kind. A number with min ≤ max gives the ascending strings of min..max, max−min+1 of them. A number with min > max gives `[String(min)]` alone. A yes/no objective gives `["no","yes"]`. An enumeration gives its option names in order. |
| VerifyUtil.NumberRangeMember | lib/verify-util.js:49-55 | For min ≤ max, the string of an integer is among the range's values iff the integer lies in [min, max]. |
| VerifyUtil.NumberRangeAt | lib/verify-util.js:50-54 | For min ≤ max, the range has max−min+1 values, and value k is the string of min+k. |
| VerifyUtil.DomainDistinct | lib/verify-util.js:47-66 | No legal value is listed twice. |
| VerifyUtil.MergeObjectiveValues | lib/verify-util.js:7-25 | The nested push loops build exactly `Merge(acc, add)`. It is a fresh sequence, and neither input changes. |
| VerifyUtil.ExtendByRow | lib/verify-util.js:16-22 | One turn of the outer loop appends accumulated tuple i extended by each value to add, in order. |
| VerifyUtil.MergeFirst | lib/verify-util.js:8-13 | With an empty accumulator, the result has one single-value tuple per value to add, in input order. |
| VerifyUtil.MergeAt | lib/verify-util.js:15-23 | With a non-empty accumulator, there are \|acc\|·\|add\| tuples. Tuple i·\|add\|+j is `acc[i]` followed by `add[j]`. |
| VerifyUtil.ExtendAt | lib/verify-util.js:16-21 | Accumulated tuple i extended by value j sits at position i·\|add\|+j, in accumulator-major order. |
| VerifyUtil.ExtendLength | lib/verify-util.js:16-21 | Extending \|acc\| tuples by \|add\| values gives \|acc\|·\|add\| tuples. |
| VerifyUtil.ExtendMembership | lib/verify-util.js:16-21 | A tuple is produced iff it is an accumulated tuple followed by a value to add. |
| VerifyUtil.CombinationsExact | lib/verify-util.js:7-24 | Folding non-empty domains d1..dn from `[]` yields exactly the tuples of length n whose position k is drawn from dk. |
| VerifyUtil.CombinationsCount | lib/verify-util.js:7-24 | That fold yields ∏\|dk\| tuples, and at least one. |
| VerifyUtil.CombinationsDistinct | lib/verify-util.js:7-24 | When no domain repeats a value, no combination is generated twice. |
| VerifyUtil.ExtendDistinct | lib/verify-util.js:16-21 | Extending distinct tuples by distinct values gives distinct tuples. |
| VerifyUtil.EmptyDomainRestarts | lib/verify-util.js:8-13 | A domain with no values empties the product. An empty accumulator reads as "nothing merged yet", so the next domain restarts the fold with single-value tuples. |
| VerifyUtil.ObjectiveValuesEqual | lib/verify-util.js:33-40 | The loop with its early return answers true iff the combination is a prefix of the case's values. That is exact equality when the lengths are equal. |
| Text.IntToString | lib/verify-util.js:50-53 | `String(n)` is non-empty and starts with '-' exactly for negative n. |
| Text.IntToStringInjective | lib/verify-util.js:50-53 | Two integers have the same string iff they are equal. |
| Text.NatToString | lib/verify-util.js:50-53 | A natural number's string is all digits, and has one digit exactly below 10. |
| Text.Trim | lib/model.js:16 | The trimmed text is the slice of the text that starts after its leading white space. |
| Text.TrimExact | lib/model.js:16 | Trimming removes only white space, from both ends, and leaves text that neither starts nor ends with white space. |
| Text.LeadingSpaces | lib/model.js:16 | The leading run of white space is maximal. |
| Text.TrailingSpaces | lib/model.js:16 | The trailing run of white space is maximal. |
| Collections.Dict.Put | lib/model.js:15 | Assigning `obj[k] = v` overwrites an existing key in place and appends a new key at the end of the key order. |
| Collections.PutAllLastWins | lib/model.js:14-20 | Filling an object in a loop gives one entry per distinct key. The value under a key comes from the last element with that key, so later definitions overwrite earlier ones. |
| Collections.TallyCounts | lib/verify.js:67-71 | The counting dictionary holds exactly the counted keys, each with its number of occurrences. |
| Collections.RepeatedInTally | lib/verify.js:76-81 | The keys whose count exceeds one are exactly those that occur more than once, each listed once. |
| Collections.RepeatedKeysExact | lib/verify.js:216-221 | Walking distinct keys and keeping those counted more than once keeps exactly those keys, once each. |
| Model.LoadStringList | lib/model.js:8-25 | There is one entry per distinct string id. It holds the trimmed text of the last definition of that id, not yet used. |
| Model.CreateObjectiveModel | lib/model.js:45-76 | The id and description come from the element, and `used` starts false. A number keeps min and max. An enumeration gets options keyed by name, each holding its name and description. A default is present iff the element has one. |
| Model.OptionsKeyedByName | lib/model.js:61-67 | Every option is stored under its own name. The last option with a name gives its description. |
| Model.CaseIndexRefs | lib/model.js:97-99 | A case's values keep the order and number of its index-refs. |
| Model.CreateScoreModel | lib/model.js:83-112 | The index list keeps source order and length. There is one case per case element, in order. A case has points and an error exactly when the element has them. |
| Model.AddObjectives | lib/model.js:126-128 | One objective loop assigns `objectives[id]` for each element in order. |
| Model.PutAllConcat | lib/model.js:125-141 | Running the three objective loops one after another is one loop over their concatenation. |
| Model.MissionObjectiveModels | lib/model.js:125-141 | The objectives map is built from number, then yes/no, then enumeration elements. |
| Model.CreateMissionModel | lib/model.js:119-149 | The mission keeps its name and description, its objectives keyed by id, and one score model per score element, in order. |
| Model.MissionObjectives | lib/model.js:125-141 | There is one objective per distinct id over all three kinds, none used yet. Each is the model of the last element with that id, in the order number, yes/no, enumeration. |
| Model.LaterKindReplaces | lib/model.js:125-141 | An enumeration element with the same id as an earlier number element replaces it. |
| Verify.Diagnostics.Error | lib/verify.js:194-195 | Reporting an error appends one diagnostic, which adds one to the count. |
| Verify.CheckString | lib/verify.js:189-200 | For each string list in order, a missing id gives exactly one error naming that language. Otherwise only that entry's `used` is set. No other entry, language or key order changes. |
| Verify.CheckStringAt | lib/verify.js:192-198 | One list's lookup preserves the loop invariant: earlier lists are marked, later ones are untouched. |
| Verify.MarkKeysTwice | lib/verify.js:197 | Marking strings used in two batches equals marking them all at once. |
| Verify.UnknownStringDiagsMarked | lib/verify.js:193 | Whether a lookup fails does not depend on the marks left by earlier lookups. |
| Verify.CheckDefault | lib/verify.js:16-37 | A present default is reported once, naming the default value and the objective, when it is out of range for its kind. Out of range means outside [min, max] for a number, neither "yes" nor "no" for a yes/no objective, and not an option name for an enumeration. |
| Verify.CheckOptionDescriptions | lib/verify.js:40-44 | Every option description is looked up, in option order. |
| Verify.VerifyObjective | lib/verify.js:13-45 | The checks run in order: the description lookup, the default check, then an enumeration's option descriptions. The log and marks are exactly those of the three checks. |
| Verify.CheckIndex | lib/verify.js:59-73 | An unknown index is reported once and disables the coverage check. A known index has its objective set used, its values merged into the combinations, and its count raised by one. |
| Verify.CheckIndexAt | lib/verify.js:59-73 | One index preserves the loop invariant over index prefixes. |
| Verify.CheckIndexes | lib/verify.js:59-73 | After the index loop, exactly the known indexes are marked and every unknown index is reported in order. The combinations are the fold of the known objectives' values. The counts are the tally of known indexes. The flag records that every index was known. |
| Verify.ReportRepeatedIndexes | lib/verify.js:76-81 | Every counted objective with a count above one is reported, in first-use order. |
| Verify.CheckCaseValues | lib/verify.js:86-103 | A wrong length is reported once and skips the value checks. Otherwise each value not legal for its known objective is reported, and positions whose objective is unknown are skipped. The flag is false iff something was reported. |
| Verify.CheckErrorString | lib/verify.js:107-109 | A case's error message is looked up iff the case has one. |
| Verify.CheckCase | lib/verify.js:84-110 | One case preserves the loop invariant: its shape check, then its error lookup. |
| Verify.CheckCases | lib/verify.js:84-110 | Every case's shape diagnostics and error lookup are reported in case order. The flag is true iff every case passed its shape check. |
| Verify.CheckCoverage | lib/verify.js:112-146 | Each combination's record counts the cases it matches. Then exactly one diagnostic is appended per combination whose count is not one: "no case found" for 0, "N cases found" for N > 1. |
| Verify.VerifyScore | lib/verify.js:53-147 | The log gets the index, repeated-index and case diagnostics. It gets the coverage diagnostics only when every index is known and every case passed. The indexed objectives stay marked used. |
| Verify.ObjectiveDiagsMarked | lib/verify.js:13-45 | Marks left by earlier lookups change nothing `verifyObjective` reports. |
| Verify.CasesDiagsMarked | lib/verify.js:106-109 | Marks left by earlier lookups change nothing the case checks report. |
| Verify.ScoreDiagsMarked | lib/verify.js:53-147 | Marks left by earlier lookups change nothing `verifyScore` reports. |
| Verify.DomainsMarked | lib/verify.js:65 | Marking objectives used changes no objective's legal values, so later scores check against the same domains. |
| Verify.MarkObjectivesTwice | lib/verify.js:65 | Marking objectives used across two scores equals marking them at once. |
| Verify.CheckObjectives | lib/verify.js:164-167 | Every objective is verified in key order. The legal-value list computed there is discarded. |
| Verify.CheckScore | lib/verify.js:170-172 | One score preserves the loop invariant over score prefixes. |
| Verify.CheckScores | lib/verify.js:170-172 | Every score is verified in order. Objective marks accumulate over the scores. |
| Verify.ReportUnusedObjectives | lib/verify.js:175-180 | Every objective still unused is reported, in key order. |
| Verify.CheckMissionStrings | lib/verify.js:160-161 | The mission's name, then its description, is looked up. |
| Verify.VerifyMission | lib/verify.js:156-181 | The mission model is built, then the name and description are looked up. Then come the objectives, the scores, and last the objectives no score indexed. The log and marks are exactly those of these steps, in order. |
| Verify.TallyLanguages | lib/verify.js:207-214 | The counts hold, per language, how many lists declare it. |
| Verify.ReportRepeatedLanguages | lib/verify.js:216-221 | Every language counted more than once is reported, in order of first declaration. |
| Verify.CheckDoubleLanguages | lib/verify.js:206-222 | The check appends exactly the repeated-language diagnostics of the string lists. |
| Verify.ReportDoubleStrings | lib/verify.js:231-236 | Within one list, every string whose definition count exceeds one is reported. |
| Verify.CheckDoubleStrings | lib/verify.js:228-238 | The per-list reports are appended list by list. |
| Verify.ReportUnusedStrings | lib/verify.js:247-256 | Within one list, every string not marked used is reported, skipping "yes" and "no". |
| Verify.CheckUnusedStrings | lib/verify.js:244-258 | The per-list reports are appended list by list. |
| Verify.ReportMissingStatic | lib/verify.js:267-273 | Within one list, every static string the list does not define is reported. |
| Verify.CheckStaticStrings | lib/verify.js:264-275 | The per-list reports are appended list by list. |
| Verify.CheckPercentageMissions | lib/verify.js:281-286 | There is one error iff the percentage-mission count exceeds one. Otherwise the log is unchanged. |
| VerifyProperties.UnknownStringMember | lib/verify.js:191-195 | A diagnostic is reported iff it names the key and the language of a list lacking it. |
| VerifyProperties.UnknownStringLength | lib/verify.js:191-195 | A lookup reports exactly as many errors as there are lists lacking the key, so at most one per list. |
| VerifyProperties.UnknownStringExact | lib/verify.js:189-200 | A lookup reports the key with a lacking list's language, and only then. The number of reports equals the number of lists lacking the key, so each lacking list yields exactly one. It reports nothing iff every list defines the key. |
| VerifyProperties.MarkKeysExact | lib/verify.js:196-198 | After lookups, an entry is used iff it was used before or was looked up. Languages, key order, key sets and counts are unchanged. |
| VerifyProperties.DefaultAcceptedIffLegal | lib/verify.js:16-37 | A default is reported iff it is present and is not one of the objective's legal values, and then it is reported exactly once, naming the default as `allValues` spells it. |
| VerifyProperties.AllKnownIff | lib/verify.js:59-63 | The coverage flag survives the index loop iff every index names an objective. |
| VerifyProperties.IndexDiagsExact | lib/verify.js:60-63 | The unknown-index diagnostics name exactly the unknown indexes. There are none iff every index is known. |
| VerifyProperties.KnownOccurrences | lib/verify.js:64-71 | Only known indexes are counted, each as often as it appears. |
| VerifyProperties.UsedTwiceDiagsExact | lib/verify.js:76-81 | One repeated-objective diagnostic per repeated objective, with no duplicates. |
| VerifyProperties.DuplicateIndexExact | lib/verify.js:67-81 | A known objective named more than once in one index list is reported exactly once, and nothing else is. The report is empty iff no known objective repeats. |
| VerifyProperties.ValuesOkIff | lib/verify.js:92-103 | A case's values pass iff each value at a known objective's position is one of its legal values. |
| VerifyProperties.ValueDiagsExact | lib/verify.js:92-103 | Each illegal value at a known position is reported, naming the value and objective, and nothing else is. Nothing is reported iff the values pass. |
| VerifyProperties.ShapeDiagsEmpty | lib/verify.js:86-104 | A case draws no shape diagnostic iff it passes. A wrong length draws exactly the one count-mismatch diagnostic. |
| VerifyProperties.CasesOkIff | lib/verify.js:84-110 | The case loop keeps the coverage flag iff every case passes its shape check. |
| VerifyProperties.CasesDiagsEmpty | lib/verify.js:84-110 | The case loop reports nothing iff every case passes and every error message is defined in every language. |
| VerifyProperties.ErrorsDefinedStep | lib/verify.js:107-109 | One more case keeps every error defined iff its own error lookup reports nothing. |
| VerifyProperties.CoverageDiagsExact | lib/verify.js:131-145 | A combination matched by no case gets "no case found". One matched N > 1 times gets "N cases found" with that N. No other coverage diagnostic appears. |
| VerifyProperties.CoverageDiagsEmpty | lib/verify.js:131-145 | Coverage reports nothing iff every combination is matched by exactly one case. |
| VerifyProperties.MatchCountExact | lib/verify.js:122-128 | When all cases have the combination's length, the match count is the number of cases with exactly those values. |
| VerifyProperties.IndexDomainsKnown | lib/verify.js:59-66 | When every index is known, the merged domains are the index objectives' domains, position by position. |
| VerifyProperties.CombinationsAreAssignments | lib/verify.js:66 | The generated combinations are exactly the legal value assignments to the index list. |
| VerifyProperties.CleanScoreIsExactCover | lib/verify.js:53-147 | A score table that draws no diagnostic has specific properties. Every index is known and none repeats. Every case is a legal assignment. Every legal assignment is the values of exactly one case. Every error message is defined. |
| VerifyProperties.ExactCoverIsClean | lib/verify.js:53-147 | The converse holds: such a table draws no diagnostic. |
| VerifyProperties.AllIndexesMember | lib/verify.js:170-172 | An objective is indexed by the mission iff some score's index list names it. |
| VerifyProperties.UnusedDiagsExact | lib/verify.js:175-180 | Exactly the listed objectives still unused are reported, each once. |
| VerifyProperties.MissionUnusedExact | lib/verify.js:164-180 | After all scores, exactly the objectives that no score indexes are reported, each once. |
| VerifyProperties.LanguageTwiceDiagsExact | lib/verify.js:216-221 | One diagnostic per repeated language, with no duplicates. |
| VerifyProperties.DoubleLanguagesExact | lib/verify.js:206-222 | Each language declared by more than one list is reported exactly once, and nothing else is. |
| VerifyProperties.PerListMember | lib/verify.js:229-230 | A document-level check reports a diagnostic iff it reports it for some list. |
| VerifyProperties.DoubleStringsInExact | lib/verify.js:231-236 | Within one list, exactly the ids defined more than once are reported, with that list's language. |
| VerifyProperties.DoubleStringsExact | lib/verify.js:228-238 | A string-twice diagnostic appears iff some list of that language defines the id more than once. |
| VerifyProperties.UnusedStringsInExact | lib/verify.js:247-256 | Within one list, exactly the non-static ids not marked used are reported. |
| VerifyProperties.UnusedStringsExact | lib/verify.js:244-258 | Exactly the unused strings are reported, and "yes" and "no" never are. |
| VerifyProperties.MarkedNotUnused | lib/verify.js:197 | A string looked up anywhere is never reported as unused, in any language. |
| VerifyProperties.MissingStaticInExact | lib/verify.js:267-273 | Within one list, exactly the listed static strings it lacks are reported. |
| VerifyProperties.MissingStaticExact | lib/verify.js:264-275 | There is one diagnostic per (language, missing static string) pair. Each list draws as many as it lacks of "yes" and "no". |

## Left out

- **lib/loader.js**: not part of this model. It does file reading, the schema download, schema validation and XML parsing, which are I/O and foreign libraries. The model takes a typed decoded document (`Model.DocMission` and the records it holds) as input.
- **lib/challengevalidator.js**: not part of this model. It is process glue: exit codes and callback wiring.
- **The `output` and `error` modules**: not part of this model. Error messages are diagnostic kinds rather than text, and the counter is the log's length. `output.info` progress messages are dropped.
- **`createModel` (lib/model.js:32-37)**: only wraps `loadStringList` into `model.strings`. The checks read another shape, `model.stringlists[i]` with a language and entries holding `used` and `count`, so the model follows the checks' shape. No code shown builds those lists or counts definitions, so the string lists and their `count` fields are inputs.
- **The percentage-mission tally**: this is an input to `Verify.CheckPercentageMissions`. `createMissionModel` is passed the tally but ignores it (lib/verify.js:157, lib/model.js:119).
- **JavaScript coercion**: the model treats `min`, `max`, the number default and option keys as integers and strings. Attribute strings compared with `<`, the `index += 1` string concatenation and loose `!=` are not modelled. `Text.IntToString` is plain decimal for every integer; the model does not capture JavaScript's `String(n)` switching to exponent form at |n| ≥ 10^21 or losing precision beyond 2^53.
- **JavaScript object key order**: objects are insertion-ordered dictionaries. JavaScript's moving of integer-like keys to the front is not modelled.
- **The `$`/`_` attribute encoding of the XML decoder**: not modelled. Elements are typed records. Inputs on which the builders would throw become ordinary values in the model: an enumeration without `option` children (`objective.option.forEach`, lib/model.js:62), a string element without text (`string['_'].trim()`, lib/model.js:16) and a score without index children (`score.indexes.index.forEach`, lib/model.js:89). The model gives them an empty option list, an empty text and an empty index list.
- **Rewriting `objectiveValues` in place into `{values, useCount}` records (lib/verify.js:114-119)**: the model fills a fresh array of records instead.
- **Inherited object properties**: every lookup of the form `x[k] === undefined` (lib/verify.js:31, 60, 67, 94, 193, 210, 269) is modelled as a test for an own key of the dictionary. JavaScript property lookup also finds members inherited from `Object.prototype`, such as `constructor`, `toString` and `hasOwnProperty`. The model does not capture this: for a key such as `toString` the source reports no unknown string or index and sets `used` on the shared prototype member, where the model reports the key as unknown.
- **Guards in the dictionary loops**: loops over a dictionary's keys test membership before reading an entry. In the model, a well-formed dictionary always passes that test.
- VerifyProperties.DefaultAcceptedIffLegal: stated only for number ranges with min ≤ max. With min > max the legal values are `[String(min)]`, yet `verifyObjective` reports every default. `Verify.CheckDefault` models that case as written.
- VerifyUtil.CombinationsExact: stated only for non-empty domains. An empty domain (an enumeration without options) restarts the fold, as `VerifyUtil.EmptyDomainRestarts` states.
- VerifyProperties.CleanScoreIsExactCover: stated only for a non-empty index list with non-empty domains. With no indexes the fold generates no combination at all.
- VerifyUtil.MergeAt: states the position of each merged tuple one pair (i, j) at a time rather than as one quantified statement.
