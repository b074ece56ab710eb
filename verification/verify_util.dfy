/**
 * The helpers of the score check: the legal values of an objective, the
 * cross product of several objectives' values, and the comparison of a
 * generated combination with a case's values.
 */
module VerifyUtil {
  import opened Collections
  import opened Text
  import opened Types

  /** A combination of objective values, one per index of a score table. */
  type Tuple = seq<string>

  /**
   * The strings of a number range as the range loop produces them: `min`
   * first, then every integer up to `max`; `min` alone when `min >= max`.
   */
  function NumberRange(min: int, max: int): seq<string>
    decreases max - min
  {
    if min < max then NumberRange(min, max - 1) + [IntToString(max)] else [IntToString(min)]
  }

  /** The legal values of an objective, as strings. */
  function Domain(o: Objective): seq<string> {
    match o.kind
    case Number(min, max, _) => NumberRange(min, max)
    case YesNo(_) => ["no", "yes"]
    case Enum(options, _) => options.keys
  }

  lemma {:induction false} NumberRangeAt(min: int, max: int)
    requires min <= max
    decreases max - min
    ensures |NumberRange(min, max)| == max - min + 1
    ensures forall k :: 0 <= k <= max - min ==> NumberRange(min, max)[k] == IntToString(min + k)
  {
    if min < max {
      NumberRangeAt(min, max - 1);
      var front := NumberRange(min, max - 1);
      forall k | 0 <= k <= max - min ensures NumberRange(min, max)[k] == IntToString(min + k) {
        if k < max - min {
          assert NumberRange(min, max)[k] == front[k];
        }
      }
    }
  }

  /** An integer's string is in the range's strings exactly when the integer lies in [min, max]. */
  lemma NumberRangeMember(min: int, max: int, n: int)
    requires min <= max
    ensures IntToString(n) in NumberRange(min, max) <==> min <= n <= max
  {
    var r := NumberRange(min, max);
    NumberRangeAt(min, max);
    if IntToString(n) in r {
      var k :| 0 <= k < |r| && r[k] == IntToString(n);
      NumberRangeMemberAt(min, max, n, k);
    }
    if min <= n <= max {
      assert r[n - min] == IntToString(min + (n - min));
    }
  }

  lemma NumberRangeMemberAt(min: int, max: int, n: int, k: nat)
    requires min <= max && k < |NumberRange(min, max)|
    requires NumberRange(min, max)[k] == IntToString(n)
    ensures n == min + k
  {
    NumberRangeAt(min, max);
    IntToStringInjective(n, min + k);
  }

  /** No legal value is listed twice (the option names of an enumeration are distinct keys). */
  lemma DomainDistinct(o: Objective)
    requires o.kind.Enum? ==> o.kind.options.Valid()
    ensures Distinct(Domain(o))
  {
    if o.kind.Number? && o.kind.min <= o.kind.max {
      var r := Domain(o);
      NumberRangeAt(o.kind.min, o.kind.max);
      forall i, j | 0 <= i < j < |r| ensures r[i] != r[j] {
        IntToStringInjective(o.kind.min + i, o.kind.min + j);
      }
    }
  }

  /** `allValues(objective)`: the number range loop, the fixed yes/no pair, or the option names. */
  method AllValues(o: Objective) returns (values: seq<string>)
    ensures values == Domain(o)
    ensures o.kind.Number? && o.kind.min <= o.kind.max ==>
              |values| == o.kind.max - o.kind.min + 1 &&
              forall k :: 0 <= k < |values| ==> values[k] == IntToString(o.kind.min + k)
    ensures o.kind.Number? && o.kind.min > o.kind.max ==> values == [IntToString(o.kind.min)]
    ensures o.kind.YesNo? ==> values == ["no", "yes"]
    ensures o.kind.Enum? ==> values == o.kind.options.keys
  {
    match o.kind {
      case Number(min, max, _) =>
        values := [IntToString(min)];
        var index := min;
        while index < max
          invariant min <= index && (index <= max || index == min)
          invariant values == NumberRange(min, index)
          decreases max - index
        {
          index := index + 1;
          values := values + [IntToString(index)];
        }
        if min <= max {
          NumberRangeAt(min, max);
        }
      case YesNo(_) =>
        values := ["no", "yes"];
      case Enum(options, _) =>
        values := [];
        for i := 0 to |options.keys|
          invariant values == options.keys[..i]
        {
          values := values + [options.keys[i]];
        }
    }
  }

  /** One one-value tuple per value, in order. */
  function Singletons(add: seq<string>): seq<Tuple> {
    seq(|add|, j requires 0 <= j < |add| => [add[j]])
  }

  /** `t` extended by each value of `add`, in order. */
  function Row(t: Tuple, add: seq<string>): seq<Tuple> {
    seq(|add|, j requires 0 <= j < |add| => t + [add[j]])
  }

  /** Every tuple of `acc` extended by every value of `add`, tuple by tuple. */
  function Extend(acc: seq<Tuple>, add: seq<string>): seq<Tuple> {
    if acc == [] then [] else Extend(acc[..|acc| - 1], add) + Row(acc[|acc| - 1], add)
  }

  /** `mergeObjectiveValues(acc, add)`; an empty `acc` means that nothing has been merged yet. */
  function Merge(acc: seq<Tuple>, add: seq<string>): seq<Tuple> {
    if |acc| == 0 then Singletons(add) else Extend(acc, add)
  }

  lemma MulStrictBound(i: nat, j: nat, m: nat, n: nat)
    requires i < n && j < m
    ensures i * m + j < n * m
  {
    var rest: nat := n - i - 1;
    assert n * m == (i + 1) * m + rest * m;
    assert (i + 1) * m == i * m + m;
  }

  lemma {:induction false} ExtendLength(acc: seq<Tuple>, add: seq<string>)
    ensures |Extend(acc, add)| == |acc| * |add|
  {
    if acc != [] {
      var n, m := |acc|, |add|;
      ExtendLength(acc[..n - 1], add);
      assert (n - 1) * m + m == n * m;
    }
  }

  lemma {:induction false} ExtendAt(acc: seq<Tuple>, add: seq<string>, i: nat, j: nat)
    requires i < |acc| && j < |add|
    ensures i * |add| + j < |Extend(acc, add)|
    ensures Extend(acc, add)[i * |add| + j] == acc[i] + [add[j]]
  {
    var n, m := |acc|, |add|;
    var front := acc[..n - 1];
    var e := Extend(front, add);
    ExtendLength(acc, add);
    ExtendLength(front, add);
    if i < n - 1 {
      ExtendAt(front, add, i, j);
      MulStrictBound(i, j, m, n - 1);
      assert front[i] == acc[i];
    } else {
      assert i * m + j == |e| + j;
      assert Row(acc[n - 1], add)[j] == acc[i] + [add[j]];
    }
  }

  /**
   * `mergeObjectiveValues`: builds a fresh array of fresh tuples (each a copy
   * of an accumulated tuple with one value pushed), leaving both inputs as
   * they were.
   */
  method MergeObjectiveValues(acc: seq<Tuple>, add: seq<string>) returns (merged: seq<Tuple>)
    ensures merged == Merge(acc, add)
  {
    merged := [];
    if |acc| == 0 {
      for j := 0 to |add|
        invariant merged == Singletons(add[..j])
      {
        merged := merged + [[add[j]]];
      }
      assert add[..|add|] == add;
    } else {
      for i := 0 to |acc|
        invariant merged == Extend(acc[..i], add)
      {
        merged := ExtendByRow(acc, add, i, merged);
      }
      assert acc[..|acc|] == acc;
    }
  }

  /** The inner loop of `mergeObjectiveValues`: appends tuple `i` extended by each value of `add`. */
  method ExtendByRow(acc: seq<Tuple>, add: seq<string>, i: nat, merged: seq<Tuple>) returns (extended: seq<Tuple>)
    requires i < |acc| && merged == Extend(acc[..i], add)
    ensures extended == Extend(acc[..i + 1], add)
  {
    extended := merged;
    for j := 0 to |add|
      invariant extended == merged + Row(acc[i], add[..j])
    {
      extended := extended + [acc[i] + [add[j]]];
    }
    assert add[..|add|] == add;
    assert acc[..i + 1][..i] == acc[..i];
  }

  /** The first merge makes one one-value tuple per value, in order. */
  lemma MergeFirst(add: seq<string>)
    ensures |Merge([], add)| == |add|
    ensures forall j :: 0 <= j < |add| ==> Merge([], add)[j] == [add[j]]
  {
  }

  /**
   * A later merge extends every accumulated tuple by every value, tuple by
   * tuple: tuple `i` with value `j` sits at position `i * |add| + j` of the
   * `|acc| * |add|` merged tuples.
   */
  lemma MergeAt(acc: seq<Tuple>, add: seq<string>, i: nat, j: nat)
    requires i < |acc| && j < |add|
    ensures |Merge(acc, add)| == |acc| * |add|
    ensures i * |add| + j < |Merge(acc, add)|
    ensures Merge(acc, add)[i * |add| + j] == acc[i] + [add[j]]
  {
    ExtendLength(acc, add);
    ExtendAt(acc, add, i, j);
  }

  /** The combinations a score table's index loop accumulates, folding one domain at a time from `[]`. */
  function Combinations(domains: seq<seq<string>>): seq<Tuple> {
    if domains == [] then [] else Merge(Combinations(domains[..|domains| - 1]), domains[|domains| - 1])
  }

  /**
   * An objective without legal values empties the combinations, and since an
   * empty accumulator reads as "nothing merged yet", the next objective starts
   * the fold over: its values come out as one-value tuples.
   */
  lemma EmptyDomainRestarts(domains: seq<seq<string>>, add: seq<string>)
    ensures Combinations(domains + [[]]) == []
    ensures Combinations(domains + [[], add]) == Singletons(add)
  {
    var before := Combinations(domains);
    assert (domains + [[]])[..|domains|] == domains;
    ExtendLength(before, []);
    assert Combinations(domains + [[]]) == Merge(before, []);
    assert (domains + [[], add])[..|domains| + 1] == domains + [[]];
  }

  /** `t` picks, position by position, a value of the corresponding domain. */
  ghost predicate InProduct(t: Tuple, domains: seq<seq<string>>) {
    |t| == |domains| && forall k :: 0 <= k < |t| ==> t[k] in domains[k]
  }

  predicate NonEmptyDomains(domains: seq<seq<string>>) {
    forall k :: 0 <= k < |domains| ==> domains[k] != []
  }

  function Product(domains: seq<seq<string>>): nat {
    if domains == [] then 1 else Product(domains[..|domains| - 1]) * |domains[|domains| - 1]|
  }

  lemma {:induction false} ExtendMembership(acc: seq<Tuple>, add: seq<string>, t: Tuple)
    ensures t in Extend(acc, add) <==> t != [] && t[..|t| - 1] in acc && t[|t| - 1] in add
  {
    if acc != [] {
      var front, last := acc[..|acc| - 1], acc[|acc| - 1];
      ExtendMembership(front, add, t);
      assert acc == front + [last];
      var row := Row(last, add);
      if t in row {
        var j :| 0 <= j < |add| && row[j] == t;
        assert t[..|t| - 1] == last;
      }
      if t != [] && t[..|t| - 1] == last && t[|t| - 1] in add {
        var j :| 0 <= j < |add| && add[j] == t[|t| - 1];
        assert row[j] == t;
      }
    }
  }

  /**
   * Folding non-empty domains yields exactly the tuples that take their k-th
   * value from the k-th domain: no combination is missed and nothing else
   * is produced.
   */
  lemma {:induction false} CombinationsExact(domains: seq<seq<string>>)
    requires |domains| > 0 && NonEmptyDomains(domains)
    ensures forall t :: t in Combinations(domains) <==> InProduct(t, domains)
  {
    var n := |domains|;
    var front, last := domains[..n - 1], domains[n - 1];
    if n == 1 {
      assert Combinations(front) == [];
      forall t ensures t in Combinations(domains) <==> InProduct(t, domains) {
        var s := Singletons(last);
        if t in s {
          var j :| 0 <= j < |last| && s[j] == t;
        }
        if InProduct(t, domains) {
          var j :| 0 <= j < |last| && last[j] == t[0];
          assert s[j] == t;
        }
      }
    } else {
      CombinationsExact(front);
      var acc := Combinations(front);
      var w := seq(n - 1, k requires 0 <= k < n - 1 => front[k][0]);
      assert InProduct(w, front);
      assert acc != [];
      forall t ensures t in Combinations(domains) <==> InProduct(t, domains) {
        ExtendMembership(acc, last, t);
        if t != [] {
          assert InProduct(t, domains) <==> InProduct(t[..|t| - 1], front) && t[|t| - 1] in last;
        }
      }
    }
  }

  /** With non-empty domains d1..dn the fold yields |d1| * ... * |dn| tuples. */
  lemma {:induction false} CombinationsCount(domains: seq<seq<string>>)
    requires |domains| > 0 && NonEmptyDomains(domains)
    ensures |Combinations(domains)| == Product(domains) > 0
  {
    var n := |domains|;
    var front, last := domains[..n - 1], domains[n - 1];
    if n > 1 {
      CombinationsCount(front);
      ExtendLength(Combinations(front), last);
    }
  }

  lemma DistinctConcat<T>(a: seq<T>, b: seq<T>)
    requires Distinct(a) && Distinct(b)
    requires forall x :: x in a ==> x !in b
    ensures Distinct(a + b)
  {
    var c := a + b;
    forall i, j | 0 <= i < j < |c| ensures c[i] != c[j] {
      if i < |a| && j >= |a| {
        assert c[i] in a && c[j] in b;
      }
    }
  }

  lemma RowMembership(t: Tuple, add: seq<string>, x: Tuple)
    ensures x in Row(t, add) <==> x != [] && x[..|x| - 1] == t && x[|x| - 1] in add
  {
    var row := Row(t, add);
    if x in row {
      var j :| 0 <= j < |add| && row[j] == x;
      assert x[..|x| - 1] == t;
    }
    if x != [] && x[..|x| - 1] == t && x[|x| - 1] in add {
      var j :| 0 <= j < |add| && add[j] == x[|x| - 1];
      assert row[j] == x;
    }
  }

  lemma {:induction false} ExtendDistinct(acc: seq<Tuple>, add: seq<string>)
    requires Distinct(acc) && Distinct(add)
    ensures Distinct(Extend(acc, add))
  {
    if acc != [] {
      var front, last := acc[..|acc| - 1], acc[|acc| - 1];
      ExtendDistinct(front, add);
      var row := Row(last, add);
      forall i, j | 0 <= i < j < |row| ensures row[i] != row[j] {
        assert row[i][|last|] == add[i] && row[j][|last|] == add[j];
      }
      assert last !in front by {
        forall i | 0 <= i < |front| ensures front[i] != last {
          assert front[i] == acc[i];
        }
      }
      forall x | x in Extend(front, add) ensures x !in row {
        ExtendMembership(front, add, x);
        RowMembership(last, add, x);
      }
      DistinctConcat(Extend(front, add), row);
    }
  }

  /** When no domain lists a value twice, no combination is generated twice. */
  lemma {:induction false} CombinationsDistinct(domains: seq<seq<string>>)
    requires forall k :: 0 <= k < |domains| ==> Distinct(domains[k])
    ensures Distinct(Combinations(domains))
  {
    if domains != [] {
      var n := |domains|;
      var front, last := domains[..n - 1], domains[n - 1];
      CombinationsDistinct(front);
      var acc := Combinations(front);
      if acc == [] {
        var s := Singletons(last);
        forall i, j | 0 <= i < j < |s| ensures s[i] != s[j] {
          assert s[i][0] == last[i] && s[j][0] == last[j];
        }
      } else {
        ExtendDistinct(acc, last);
      }
    }
  }

  /**
   * `objectiveValuesEqual(values, caseValues)`: walks the positions of
   * `values` and stops at the first that differs; a position missing from
   * `caseValues` differs. It therefore checks for a prefix.
   */
  method ObjectiveValuesEqual(values: Tuple, caseValues: Tuple) returns (equal: bool)
    ensures equal <==> values <= caseValues
    ensures |values| == |caseValues| ==> (equal <==> values == caseValues)
  {
    var i := 0;
    while i < |values|
      invariant 0 <= i <= |values|
      invariant i <= |caseValues| && values[..i] == caseValues[..i]
    {
      if i >= |caseValues| || values[i] != caseValues[i] {
        return false;
      }
      i := i + 1;
    }
    assert values == caseValues[..|values|];
    return true;
  }
}
