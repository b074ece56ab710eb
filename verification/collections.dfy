/**
 * Collections shared by the model: an optional value, the string-keyed
 * dictionaries the validator builds out of plain JavaScript objects, and the
 * occurrence tallies it keeps in such dictionaries.
 */
module Collections {

  datatype Option<+T> = None | Some(value: T)

  /** No element occurs twice. */
  ghost predicate Distinct<T>(s: seq<T>) {
    forall i, j :: 0 <= i < j < |s| ==> s[i] != s[j]
  }

  /** The number of positions of `s` that hold `x`. */
  function Occurrences<T(==)>(s: seq<T>, x: T): nat {
    if s == [] then 0
    else Occurrences(s[..|s| - 1], x) + (if s[|s| - 1] == x then 1 else 0)
  }

  lemma {:induction false} OccurrencesPositive<T>(s: seq<T>, x: T)
    ensures Occurrences(s, x) > 0 <==> x in s
  {
    if s != [] {
      var front := s[..|s| - 1];
      OccurrencesPositive(front, x);
      assert s == front + [s[|s| - 1]];
    }
  }

  /**
   * A JavaScript object used as a dictionary: `entries` holds the values and
   * `keys` the order in which a `for ... in` loop visits them, which is the
   * order in which each key was first assigned.
   */
  datatype Dict<V> = Dict(keys: seq<string>, entries: map<string, V>) {

    ghost predicate Valid() {
      Distinct(keys) && forall k :: k in entries <==> k in keys
    }

    /** `d[k] = v`: overwrites an existing key in place, appends a new one. */
    function Put(k: string, v: V): (d: Dict<V>)
      ensures d.entries == entries[k := v]
      ensures d.keys == if k in entries then keys else keys + [k]
    {
      if k in entries then Dict(keys, entries[k := v]) else Dict(keys + [k], entries[k := v])
    }
  }

  /** Assigning a key keeps the keys distinct and in step with the entries. */
  lemma PutValid<V>(d: Dict<V>, k: string, v: V)
    requires d.Valid()
    ensures d.Put(k, v).Valid()
  {
  }

  function EmptyDict<V>(): (d: Dict<V>)
    ensures d.Valid() && d.keys == [] && d.entries == map[]
  {
    Dict([], map[])
  }

  /**
   * The dictionary built by assigning `d[key(x)] = value(x)` for every `x` of
   * `xs` in order.
   */
  function PutAll<T, V>(d: Dict<V>, xs: seq<T>, key: T -> string, value: T -> V): Dict<V> {
    if xs == [] then d
    else PutAll(d, xs[..|xs| - 1], key, value).Put(key(xs[|xs| - 1]), value(xs[|xs| - 1]))
  }

  /** `x` is the last element of `xs` with its key. */
  ghost predicate LastWithKey<T>(xs: seq<T>, key: T -> string, i: int) {
    0 <= i < |xs| && forall j :: i < j < |xs| ==> key(xs[j]) != key(xs[i])
  }

  /**
   * Filling an empty dictionary gives one entry per distinct key, and the
   * value stored under a key is the one computed from the LAST element with
   * that key: later definitions overwrite earlier ones.
   */
  lemma PutAllLastWins<T, V>(xs: seq<T>, key: T -> string, value: T -> V)
    ensures PutAll(EmptyDict(), xs, key, value).Valid()
    ensures forall k :: k in PutAll(EmptyDict(), xs, key, value).entries <==> exists i :: 0 <= i < |xs| && key(xs[i]) == k
    ensures forall i :: LastWithKey(xs, key, i) ==> PutAll(EmptyDict(), xs, key, value).entries[key(xs[i])] == value(xs[i])
    ensures forall k :: k in PutAll(EmptyDict(), xs, key, value).entries ==> exists i :: LastWithKey(xs, key, i) && key(xs[i]) == k
  {
    PutAllValid(xs, key, value);
    PutAllKeys(xs, key, value);
    PutAllValues(xs, key, value);
    PutAllLastExists(xs, key, value);
  }

  lemma {:induction false} PutAllValid<T, V>(xs: seq<T>, key: T -> string, value: T -> V)
    ensures PutAll(EmptyDict(), xs, key, value).Valid()
  {
    if xs != [] {
      var n := |xs| - 1;
      PutAllValid(xs[..n], key, value);
      PutValid(PutAll(EmptyDict(), xs[..n], key, value), key(xs[n]), value(xs[n]));
    }
  }

  lemma {:induction false} PutAllKeys<T, V>(xs: seq<T>, key: T -> string, value: T -> V)
    ensures forall k :: k in PutAll(EmptyDict(), xs, key, value).entries <==> exists i :: 0 <= i < |xs| && key(xs[i]) == k
  {
    if xs != [] {
      var n := |xs| - 1;
      PutAllKeys(xs[..n], key, value);
      PutAllKeysStep(xs[..n], xs[n], key, value);
      assert xs == xs[..n] + [xs[n]];
    }
  }

  lemma {:induction false} PutAllValues<T, V>(xs: seq<T>, key: T -> string, value: T -> V)
    ensures forall i :: 0 <= i < |xs| ==> key(xs[i]) in PutAll(EmptyDict(), xs, key, value).entries
    ensures forall i :: LastWithKey(xs, key, i) ==> PutAll(EmptyDict(), xs, key, value).entries[key(xs[i])] == value(xs[i])
  {
    if xs != [] {
      var n := |xs| - 1;
      var front := xs[..n];
      PutAllValues(front, key, value);
      PutAllValuesStep(front, xs[n], key, value);
      assert xs == front + [xs[n]];
    }
    PutAllKeys(xs, key, value);
    forall i | 0 <= i < |xs| ensures key(xs[i]) in PutAll(EmptyDict(), xs, key, value).entries {
      assert exists j :: 0 <= j < |xs| && key(xs[j]) == key(xs[i]);
    }
  }

  lemma {:induction false} PutAllLastExists<T, V>(xs: seq<T>, key: T -> string, value: T -> V)
    ensures forall k :: k in PutAll(EmptyDict(), xs, key, value).entries ==> exists i :: LastWithKey(xs, key, i) && key(xs[i]) == k
  {
    if xs != [] {
      var n := |xs| - 1;
      PutAllLastExists(xs[..n], key, value);
      PutAllLastStep(xs[..n], xs[n], key, value);
      assert xs == xs[..n] + [xs[n]];
    }
  }

  lemma PutAllLastStep<T, V>(front: seq<T>, x: T, key: T -> string, value: T -> V)
    requires forall k :: k in PutAll(EmptyDict(), front, key, value).entries ==> exists i :: LastWithKey(front, key, i) && key(front[i]) == k
    ensures forall k :: k in PutAll(EmptyDict(), front + [x], key, value).entries ==> exists i :: LastWithKey(front + [x], key, i) && key((front + [x])[i]) == k
  {
    var xs := front + [x];
    assert xs[..|front|] == front;
    var d := PutAll(EmptyDict(), front, key, value);
    assert PutAll(EmptyDict(), xs, key, value) == d.Put(key(x), value(x));
    forall k | k in PutAll(EmptyDict(), xs, key, value).entries
      ensures exists i :: LastWithKey(xs, key, i) && key(xs[i]) == k
    {
      if k == key(x) {
        assert LastWithKey(xs, key, |front|);
      } else {
        assert k in d.entries;
        var i :| LastWithKey(front, key, i) && key(front[i]) == k;
        assert xs[i] == front[i];
        assert LastWithKey(xs, key, i);
      }
    }
  }

  lemma PutAllKeysStep<T, V>(front: seq<T>, x: T, key: T -> string, value: T -> V)
    requires forall k :: k in PutAll(EmptyDict(), front, key, value).entries <==> exists i :: 0 <= i < |front| && key(front[i]) == k
    ensures forall k :: k in PutAll(EmptyDict(), front + [x], key, value).entries <==> exists i :: 0 <= i < |front + [x]| && key((front + [x])[i]) == k
  {
    var xs := front + [x];
    assert xs[..|front|] == front;
    var d := PutAll(EmptyDict(), xs, key, value);
    forall k ensures k in d.entries <==> exists i :: 0 <= i < |xs| && key(xs[i]) == k {
      if k in d.entries && k != key(x) {
        var i :| 0 <= i < |front| && key(front[i]) == k;
        assert xs[i] == front[i];
      }
      if k == key(x) {
        assert xs[|front|] == x;
      }
      if exists i :: 0 <= i < |xs| && key(xs[i]) == k {
        var i :| 0 <= i < |xs| && key(xs[i]) == k;
        if i < |front| {
          assert front[i] == xs[i];
        }
      }
    }
  }

  lemma PutAllValuesStep<T, V>(front: seq<T>, x: T, key: T -> string, value: T -> V)
    requires forall i :: 0 <= i < |front| ==> key(front[i]) in PutAll(EmptyDict(), front, key, value).entries
    requires forall i :: LastWithKey(front, key, i) ==> PutAll(EmptyDict(), front, key, value).entries[key(front[i])] == value(front[i])
    ensures forall i :: LastWithKey(front + [x], key, i) ==> PutAll(EmptyDict(), front + [x], key, value).entries[key((front + [x])[i])] == value((front + [x])[i])
  {
    var xs := front + [x];
    assert xs[..|front|] == front;
    var d := PutAll(EmptyDict(), front, key, value);
    var e := d.entries[key(x) := value(x)];
    assert PutAll(EmptyDict(), xs, key, value).entries == e;
    forall i | LastWithKey(xs, key, i)
      ensures e[key(xs[i])] == value(xs[i])
    {
      if i < |front| {
        assert xs[i] == front[i];
        assert key(xs[|front|]) != key(xs[i]);
        assert LastWithKey(front, key, i);
      }
    }
  }

  /**
   * The occurrence counts of `xs`, kept the way the validator keeps them: a
   * dictionary whose entry for `x` is created at 1 (or at 0 and then
   * incremented) the first time `x` is met and incremented on every later one.
   */
  function Tally(xs: seq<string>): Dict<nat> {
    if xs == [] then EmptyDict()
    else
      var t := Tally(xs[..|xs| - 1]);
      var x := xs[|xs| - 1];
      t.Put(x, if x in t.entries then t.entries[x] + 1 else 1)
  }

  lemma {:induction false} TallyCounts(xs: seq<string>)
    ensures Tally(xs).Valid()
    ensures forall x :: x in Tally(xs).entries <==> x in xs
    ensures forall x :: x in Tally(xs).entries ==> Tally(xs).entries[x] == Occurrences(xs, x)
  {
    if xs != [] {
      var front := xs[..|xs| - 1];
      TallyCounts(front);
      var x := xs[|xs| - 1];
      PutValid(Tally(front), x, if x in Tally(front).entries then Tally(front).entries[x] + 1 else 1);
      assert xs == front + [x];
      forall x ensures !(x in front) ==> Occurrences(front, x) == 0 {
        OccurrencesPositive(front, x);
      }
    }
  }

  /** The keys, in order, whose count is greater than one. */
  function RepeatedKeys(keys: seq<string>, counts: map<string, nat>): seq<string> {
    if keys == [] then []
    else
      var k := keys[|keys| - 1];
      RepeatedKeys(keys[..|keys| - 1], counts) + (if k in counts && counts[k] > 1 then [k] else [])
  }

  lemma {:induction false} RepeatedKeysExact(keys: seq<string>, counts: map<string, nat>)
    requires Distinct(keys)
    ensures forall k :: k in RepeatedKeys(keys, counts) <==> k in keys && k in counts && counts[k] > 1
    ensures Distinct(RepeatedKeys(keys, counts))
  {
    if keys != [] {
      var front := keys[..|keys| - 1];
      RepeatedKeysExact(front, counts);
      assert keys == front + [keys[|keys| - 1]];
    }
  }

  /**
   * Reporting every key of a tally of `xs` whose count exceeds one reports
   * exactly the values that occur more than once in `xs`, each once.
   */
  lemma RepeatedInTally(xs: seq<string>)
    ensures forall x :: x in RepeatedKeys(Tally(xs).keys, Tally(xs).entries) <==> Occurrences(xs, x) > 1
    ensures Distinct(RepeatedKeys(Tally(xs).keys, Tally(xs).entries))
  {
    TallyCounts(xs);
    RepeatedKeysExact(Tally(xs).keys, Tally(xs).entries);
    forall x ensures Occurrences(xs, x) > 0 <==> x in xs {
      OccurrencesPositive(xs, x);
    }
  }
}
