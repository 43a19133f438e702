/** `getPercentages`, the helper with which the pie chart component turns a
    list of records into one slice per distinct value of a field, and the
    component's choice of that field.

    `count` is a plain JavaScript object. Two of the names it inherits from
    Object.prototype take part in the counting loop: assigning a number to
    `count["__proto__"]` is silently ignored, so that key is never counted;
    and once a record has carried the key "hasOwnProperty", the number stored
    under it shadows the inherited method and the next call
    `count.hasOwnProperty(key)` throws a TypeError. Every other key is
    counted; a record without the field is counted under "undefined". */
module PieChart {
  import opened JsValues
  import opened PropertyOrder

  /** One slice: a distinct value of the field, and the share of the records
      that carry it, in percent. */
  datatype Bucket = Bucket(category: string, percentage: real)

  datatype JsError = TypeError(message: string)

  datatype Result<T> = Ok(value: T) | Err(error: JsError)

  const DefaultKeyword: string := "gender"
  const HasOwnKey: string := "hasOwnProperty"
  const ProtoKey: string := "__proto__"

  /** The default parameter `keyword = 'gender'`, used when the argument is
      omitted. */
  function Keyword(keyword: Option<string>): string {
    if keyword.Some? then keyword.value else DefaultKeyword
  }

  /** `person[keyword]`, as the property key it is used as in `count`. */
  function KeyOf(person: Record, keyword: string): string {
    ToPropertyKey(Lookup(person, keyword))
  }

  function KeysOf(people: seq<Record>, keyword: string): (ks: seq<string>)
    ensures |ks| == |people|
    ensures forall i :: 0 <= i < |people| ==> ks[i] == KeyOf(people[i], keyword)
  {
    seq(|people|, i requires 0 <= i < |people| => KeyOf(people[i], keyword))
  }

  // ---------------------------------------------------------------------
  // The counting loop

  /** The object `count` between iterations: its own properties with their
      values, and the order in which they were created. */
  datatype Tally = Tally(count: map<string, nat>, created: seq<string>)

  /** One iteration of the counting loop, for the key `key`. */
  function CountStep(t: Tally, key: string): Result<Tally> {
    if HasOwnKey in t.count then
      // the own property "hasOwnProperty" is a number, not the method
      Err(TypeError("count.hasOwnProperty is not a function"))
    else if key == ProtoKey then
      // `count.__proto__ = 0` and `count.__proto__ += 1` change nothing
      Ok(t)
    else if key in t.count then
      Ok(Tally(t.count[key := t.count[key] + 1], t.created))
    else
      Ok(Tally(t.count[key := 1], t.created + [key]))
  }

  /** The counting loop run over the keys `ks`. */
  function CountKeys(ks: seq<string>): (r: Result<Tally>)
    ensures r.Ok? ==> |r.value.created| <= |ks|
  {
    if ks == [] then Ok(Tally(map[], []))
    else
      match CountKeys(ks[..|ks| - 1])
      case Err(e) => Err(e)
      case Ok(t) => CountStep(t, ks[|ks| - 1])
  }

  // ---------------------------------------------------------------------
  // The emitting loop and the whole function

  /** `(count / total) * 100`, in exact arithmetic. */
  function Percent(count: nat, total: nat): real
    requires total > 0
  {
    (count as real / total as real) * 100.0
  }

  /** Every key of `keys` is a property of `count`. */
  predicate Counted(keys: seq<string>, count: map<string, nat>) {
    forall i :: 0 <= i < |keys| ==> keys[i] in count
  }

  /** The second loop, pushing one bucket per key in `keys`. */
  function Emit(keys: seq<string>, count: map<string, nat>, total: nat): (bs: seq<Bucket>)
    requires Counted(keys, count)
    requires keys != [] ==> total > 0
    ensures |bs| == |keys|
  {
    if keys == [] then []
    else
      var n := |keys| - 1;
      Emit(keys[..n], count, total) + [Bucket(keys[n], Percent(count[keys[n]], total))]
  }

  /** What `getPercentages(people, keyword)` returns, or the exception it
      throws. */
  function Percentages(people: seq<Record>, keyword: Option<string>): Result<seq<Bucket>> {
    var ks := KeysOf(people, Keyword(keyword));
    match CountKeys(ks)
    case Err(e) => Err(e)
    case Ok(t) =>
      CountKeysCounted(ks);
      Ok(Emit(ForInOrder(t.created), t.count, |people|))
  }

  /** getPercentages (client/components/PieChart.js): the counting loop,
      then the emitting loop over `for (key in count)`. The records are a
      value, so the caller's list is left as it was. */
  method GetPercentages(people: seq<Record>, keyword: Option<string>) returns (r: Result<seq<Bucket>>)
    ensures r == Percentages(people, keyword)
  {
    var kw := Keyword(keyword);
    var counted := CountLoop(people, kw);
    if counted.Err? {
      return Err(counted.error);
    }
    var count, created := counted.value.count, counted.value.created;
    var keys := ForInOrder(created);
    CountKeysCounted(KeysOf(people, kw));
    var output := EmitLoop(keys, count, |people|);
    r := Ok(output);
  }

  /** The first loop of getPercentages: `count[key]` is created at 0 the
      first time `key` is seen, then incremented. */
  method CountLoop(people: seq<Record>, kw: string) returns (r: Result<Tally>)
    ensures r == CountKeys(KeysOf(people, kw))
  {
    ghost var ks := KeysOf(people, kw);
    var count: map<string, nat> := map[];
    var created: seq<string> := [];
    for i := 0 to |people|
      invariant CountKeys(ks[..i]) == Ok(Tally(count, created))
    {
      var key := KeyOf(people[i], kw);
      CountKeysPrefix(ks, i);
      if HasOwnKey in count {
        CountErrorPersists(ks, i + 1);
        return Err(TypeError("count.hasOwnProperty is not a function"));
      }
      assert ks[i] == key;
      ghost var before := count;
      if key != ProtoKey {
        if key !in count {
          count := count[key := 0];
          created := created + [key];
          assert count[key := count[key] + 1] == before[key := 1];
        }
        count := count[key := count[key] + 1];
      }
    }
    assert ks[..|people|] == ks;
    r := Ok(Tally(count, created));
  }

  /** The second loop of getPercentages: one bucket per key, in the order
      given. */
  method EmitLoop(keys: seq<string>, count: map<string, nat>, total: nat) returns (output: seq<Bucket>)
    requires Counted(keys, count) && |keys| <= total
    ensures output == Emit(keys, count, total)
  {
    output := [];
    for j := 0 to |keys|
      invariant output == Emit(keys[..j], count, total)
    {
      EmitPrefix(keys, count, total, j);
      output := output + [Bucket(keys[j], Percent(count[keys[j]], total))];
    }
    assert keys[..|keys|] == keys;
  }

  /** One more iteration of the counting loop. */
  lemma CountKeysPrefix(ks: seq<string>, i: nat)
    requires i < |ks|
    ensures CountKeys(ks[..i + 1]) ==
      match CountKeys(ks[..i])
      case Err(e) => Err(e)
      case Ok(t) => CountStep(t, ks[i])
  {
    assert ks[..i + 1][..i] == ks[..i];
  }

  /** After the counting loop, every key in `for...in` order has a count,
      and there are no more keys than records. */
  lemma PropertiesCounted(count: map<string, nat>, created: seq<string>)
    requires forall k :: k in count <==> k in created
    ensures Counted(ForInOrder(created), count)
  {
    var keys := ForInOrder(created);
    ForInOrderPermutes(created);
    forall i | 0 <= i < |keys| ensures keys[i] in count {
      assert keys[i] in multiset(created);
    }
  }

  /** One more iteration of the emitting loop. */
  lemma EmitPrefix(keys: seq<string>, count: map<string, nat>, total: nat, j: nat)
    requires Counted(keys, count) && |keys| <= total && j < |keys|
    ensures Counted(keys[..j], count) && Counted(keys[..j + 1], count)
    ensures Emit(keys[..j + 1], count, total) ==
      Emit(keys[..j], count, total) + [Bucket(keys[j], Percent(count[keys[j]], total))]
  {
    assert keys[..j + 1][..j] == keys[..j];
  }

  /** `getPercentages(list, title.toLowerCase())`: the pie chart component
      groups its list by the field named by its lower-cased title. */
  method PieData(list: seq<Record>, title: string) returns (r: Result<seq<Bucket>>)
    ensures r == Percentages(list, Some(ToLowerCase(title)))
  {
    r := GetPercentages(list, Some(ToLowerCase(title)));
  }

  // ---------------------------------------------------------------------
  // Reference definitions

  /** The position of the first occurrence of `k` in `ks`. */
  function FirstIndex(ks: seq<string>, k: string): (n: nat)
    requires k in ks
    ensures n < |ks| && ks[n] == k && k !in ks[..n]
  {
    if ks[0] == k then 0
    else
      var n := 1 + FirstIndex(ks[1..], k);
      assert ks[..n] == [ks[0]] + ks[1..][..n - 1];
      n
  }

  /** `s` lists keys of `ks` in the order of their first occurrence in `ks`. */
  predicate InFirstOccurrenceOrder(s: seq<string>, ks: seq<string>) {
    && AllIn(s, ks)
    && (forall i, j :: 0 <= i < j < |s| ==> FirstIndex(ks, s[i]) < FirstIndex(ks, s[j]))
  }

  /** Every key of `s` is a key of `ks`. */
  predicate AllIn(s: seq<string>, ks: seq<string>) {
    forall i :: 0 <= i < |s| ==> s[i] in ks
  }

  /** The sum of the values `count` holds for `keys`. */
  function CountSum(keys: seq<string>, count: map<string, nat>): nat {
    if keys == [] then 0
    else
      var k := keys[|keys| - 1];
      CountSum(keys[..|keys| - 1], count) + Held(count, k)
  }

  /** The value `count` holds for `k`, 0 when it holds none. */
  function Held(count: map<string, nat>, k: string): nat {
    if k in count then count[k] else 0
  }

  function PercentSum(bs: seq<Bucket>): real {
    if bs == [] then 0.0 else PercentSum(bs[..|bs| - 1]) + bs[|bs| - 1].percentage
  }

  /** `count`'s own properties are exactly the keys in `created`, each
      once, and "__proto__" is never one of them. */
  ghost predicate Tracked(t: Tally) {
    && NoDuplicates(t.created)
    && (forall k :: k in t.count <==> k in t.created)
    && ProtoKey !in t.count
  }

  /** Every key of `ks` other than "__proto__" is a property of `count`. */
  predicate Covers(ks: seq<string>, t: Tally) {
    forall i :: 0 <= i < |ks| && ks[i] != ProtoKey ==> ks[i] in t.count
  }

  /** Each property holds the number of occurrences of its key in `ks`. */
  predicate CountsMatch(ks: seq<string>, t: Tally) {
    forall i :: 0 <= i < |t.created| ==>
      t.created[i] in t.count && t.count[t.created[i]] == multiset(ks)[t.created[i]]
  }

  /** The properties together count every key of `ks` but "__proto__". */
  predicate SumMatches(ks: seq<string>, t: Tally) {
    CountSum(t.created, t.count) + multiset(ks)[ProtoKey] == |ks|
  }

  /** What the counting loop establishes about `count` after the keys `ks`:
      its properties are the distinct keys other than "__proto__", created
      in the order of their first occurrence; each holds the number of
      occurrences of its key; together they count every key other than
      "__proto__". */
  ghost predicate CountsOf(ks: seq<string>, t: Tally) {
    && Tracked(t)
    && Covers(ks, t)
    && InFirstOccurrenceOrder(t.created, ks)
    && CountsMatch(ks, t)
    && SumMatches(ks, t)
  }

  // ---------------------------------------------------------------------
  // Lemmas about the reference definitions

  lemma FirstIndexUnique(ks: seq<string>, k: string, n: nat)
    requires n < |ks| && ks[n] == k && k !in ks[..n]
    ensures FirstIndex(ks, k) == n
  {
  }

  lemma FirstIndexAppend(ks: seq<string>, x: string, k: string)
    requires k in ks
    ensures FirstIndex(ks + [x], k) == FirstIndex(ks, k)
  {
    var m := FirstIndex(ks, k);
    assert (ks + [x])[..m] == ks[..m];
    FirstIndexUnique(ks + [x], k, m);
  }

  lemma FirstIndexOfNew(ks: seq<string>, x: string)
    requires x !in ks
    ensures FirstIndex(ks + [x], x) == |ks|
  {
    assert (ks + [x])[..|ks|] == ks;
    FirstIndexUnique(ks + [x], x, |ks|);
  }

  lemma {:induction false} CountSumAppend(a: seq<string>, b: seq<string>, count: map<string, nat>)
    ensures CountSum(a + b, count) == CountSum(a, count) + CountSum(b, count)
  {
    if b == [] {
      assert a + b == a;
    } else {
      var b' := b[..|b| - 1];
      assert (a + b)[..|a + b| - 1] == a + b';
      CountSumAppend(a, b', count);
    }
  }

  /** Taking out the key at position `j` takes its count out of the sum. */
  lemma CountSumRemove(b: seq<string>, j: nat, count: map<string, nat>)
    requires j < |b|
    ensures CountSum(b, count) == CountSum(b[..j] + b[j + 1..], count) + Held(count, b[j])
  {
    assert b == b[..j] + ([b[j]] + b[j + 1..]);
    CountSumAppend(b[..j], [b[j]] + b[j + 1..], count);
    CountSumAppend([b[j]], b[j + 1..], count);
    CountSumAppend(b[..j], b[j + 1..], count);
    assert CountSum([b[j]], count) == Held(count, b[j]) by {
      assert [b[j]][..0] == [];
    }
  }

  /** Taking the same key out of two permutations of each other leaves
      permutations of each other. */
  lemma MultisetRemove(a: seq<string>, b: seq<string>, j: nat)
    requires j < |b| && multiset(a + [b[j]]) == multiset(b)
    ensures multiset(a) == multiset(b[..j] + b[j + 1..])
  {
    var x := b[j];
    assert b == b[..j] + [x] + b[j + 1..];
    assert multiset(b) == multiset(b[..j]) + multiset{x} + multiset(b[j + 1..]);
    assert multiset(a + [x]) == multiset(a) + multiset{x};
    forall o ensures multiset(a)[o] == multiset(b[..j] + b[j + 1..])[o] {
      assert multiset(a + [x])[o] == multiset(b)[o];
    }
  }

  /** The sum does not depend on the order of the keys. */
  lemma {:induction false} CountSumPermutation(a: seq<string>, b: seq<string>, count: map<string, nat>)
    requires multiset(a) == multiset(b)
    ensures CountSum(a, count) == CountSum(b, count)
    decreases |a|
  {
    if a != [] {
      var x := a[|a| - 1];
      var a' := a[..|a| - 1];
      assert a == a' + [x];
      assert x in multiset(b);
      var j :| 0 <= j < |b| && b[j] == x;
      var b' := b[..j] + b[j + 1..];
      MultisetRemove(a', b, j);
      CountSumPermutation(a', b', count);
      CountSumRemove(b, j, count);
    }
  }

  lemma {:induction false} CountSumOutside(keys: seq<string>, count: map<string, nat>, k: string, v: nat)
    requires k !in keys
    ensures CountSum(keys, count[k := v]) == CountSum(keys, count)
  {
    if keys != [] {
      CountSumOutside(keys[..|keys| - 1], count, k, v);
    }
  }

  lemma {:induction false} CountSumIncrement(keys: seq<string>, count: map<string, nat>, k: string)
    requires NoDuplicates(keys) && k in keys && k in count
    ensures CountSum(keys, count[k := count[k] + 1]) == CountSum(keys, count) + 1
  {
    var p := keys[..|keys| - 1];
    var last := keys[|keys| - 1];
    assert NoDuplicates(p);
    if last == k {
      assert k !in p by {
        forall i | 0 <= i < |p| ensures p[i] != k {
          assert p[i] == keys[i];
        }
      }
      CountSumOutside(p, count, k, count[k] + 1);
    } else {
      assert k in p by {
        var i :| 0 <= i < |keys| && keys[i] == k;
        assert p[i] == k;
      }
      CountSumIncrement(p, count, k);
    }
  }

  /** A TypeError ends the loop: it stays the outcome whatever keys follow. */
  lemma {:induction false} CountErrorPersists(ks: seq<string>, n: nat)
    requires n <= |ks| && CountKeys(ks[..n]).Err?
    ensures CountKeys(ks) == CountKeys(ks[..n])
  {
    if n < |ks| {
      var p := ks[..|ks| - 1];
      assert p[..n] == ks[..n];
      CountErrorPersists(p, n);
    } else {
      assert ks[..n] == ks;
    }
  }

  /** One step of the counting loop keeps CountsOf. */
  lemma CountStepKeepsCounts(p: seq<string>, x: string, t: Tally)
    requires CountsOf(p, t) && CountStep(t, x).Ok?
    ensures CountsOf(p + [x], CountStep(t, x).value)
  {
    StepTracked(p, x, t);
    StepCovers(p, x, t);
    StepOrder(p, x, t);
    StepCounts(p, x, t);
    StepSum(p, x, t);
  }

  /** A key that is not a property yet, and not "__proto__", is new. */
  lemma NewKeyNotSeen(p: seq<string>, x: string, t: Tally)
    requires Covers(p, t) && x !in t.count && x != ProtoKey
    ensures x !in p
  {
    forall i | 0 <= i < |p| ensures p[i] != x {
      if p[i] != ProtoKey {
        assert p[i] in t.count;
      }
    }
  }

  lemma StepTracked(p: seq<string>, x: string, t: Tally)
    requires Tracked(t) && CountStep(t, x).Ok?
    ensures Tracked(CountStep(t, x).value)
  {
    var t' := CountStep(t, x).value;
    if x != ProtoKey && x !in t.count {
      assert t'.created == t.created + [x];
      forall i, j | 0 <= i < j < |t'.created| ensures t'.created[i] != t'.created[j] {
        assert t'.created[i] == t.created[i];
        if j < |t.created| {
          assert t'.created[j] == t.created[j];
        }
      }
    }
  }

  lemma StepCovers(p: seq<string>, x: string, t: Tally)
    requires Covers(p, t) && CountStep(t, x).Ok?
    ensures Covers(p + [x], CountStep(t, x).value)
  {
    var ks := p + [x];
    var t' := CountStep(t, x).value;
    forall i | 0 <= i < |ks| && ks[i] != ProtoKey ensures ks[i] in t'.count {
      if i < |p| {
        assert ks[i] == p[i];
      }
    }
  }

  lemma StepOrder(p: seq<string>, x: string, t: Tally)
    requires Tracked(t) && Covers(p, t) && InFirstOccurrenceOrder(t.created, p)
    requires CountStep(t, x).Ok?
    ensures InFirstOccurrenceOrder(CountStep(t, x).value.created, p + [x])
  {
    PrefixFirstIndex(p, x);
    if x != ProtoKey && x !in t.count {
      NewKeyNotSeen(p, x, t);
      NewKeyOrder(p, x, t.created);
    } else {
      forall i | 0 <= i < |t.created| ensures t.created[i] in p + [x] {
        assert t.created[i] in p;
      }
    }
  }

  /** A key seen for the first time is created after every existing
      property, and occurs first after their first occurrences. */
  lemma NewKeyOrder(p: seq<string>, x: string, created: seq<string>)
    requires InFirstOccurrenceOrder(created, p) && x !in p
    requires forall k :: k in p ==> FirstIndex(p + [x], k) == FirstIndex(p, k)
    ensures InFirstOccurrenceOrder(created + [x], p + [x])
  {
    var ks := p + [x];
    var c := created + [x];
    FirstIndexOfNew(p, x);
    forall i | 0 <= i < |c| ensures c[i] in ks {
      if i < |created| {
        assert c[i] == created[i] && created[i] in p;
      }
    }
    forall i, j | 0 <= i < j < |c| ensures FirstIndex(ks, c[i]) < FirstIndex(ks, c[j]) {
      assert c[i] == created[i] && created[i] in p;
      if j < |created| {
        assert c[j] == created[j] && created[j] in p;
      }
    }
  }

  lemma StepCounts(p: seq<string>, x: string, t: Tally)
    requires Tracked(t) && Covers(p, t) && CountsMatch(p, t) && CountStep(t, x).Ok?
    ensures CountsMatch(p + [x], CountStep(t, x).value)
  {
    var ks := p + [x];
    var t' := CountStep(t, x).value;
    assert multiset(ks) == multiset(p) + multiset{x};
    if x != ProtoKey && x !in t.count {
      NewKeyNotSeen(p, x, t);
    }
    forall i | 0 <= i < |t'.created|
      ensures t'.created[i] in t'.count && t'.count[t'.created[i]] == multiset(ks)[t'.created[i]]
    {
      var k := t'.created[i];
      assert multiset(ks)[k] == multiset(p)[k] + (if k == x then 1 else 0);
      if i < |t.created| {
        assert k == t.created[i];
      }
    }
  }

  lemma StepSum(p: seq<string>, x: string, t: Tally)
    requires Tracked(t) && SumMatches(p, t) && CountStep(t, x).Ok?
    ensures SumMatches(p + [x], CountStep(t, x).value)
  {
    var t' := CountStep(t, x).value;
    assert multiset(p + [x]) == multiset(p) + multiset{x};
    var before := multiset(p)[ProtoKey];
    if x == ProtoKey {
      assert multiset(p + [x])[ProtoKey] == before + 1;
    } else {
      assert multiset(p + [x])[ProtoKey] == before;
      if x in t.count {
        CountSumIncrement(t.created, t.count, x);
      } else {
        NewKeySum(t, x);
      }
      assert CountSum(t'.created, t'.count) == CountSum(t.created, t.count) + 1;
    }
  }

  /** A new property, created with the count 1, adds 1 to the sum. */
  lemma NewKeySum(t: Tally, x: string)
    requires x !in t.created
    ensures CountSum(t.created + [x], t.count[x := 1]) == CountSum(t.created, t.count) + 1
  {
    CountSumOutside(t.created, t.count, x, 1);
    CountSumAppend(t.created, [x], t.count[x := 1]);
    assert CountSum([x], t.count[x := 1]) == 1 by {
      assert [x][..0] == [];
    }
  }

  lemma PrefixFirstIndex(p: seq<string>, x: string)
    ensures forall k :: k in p ==> FirstIndex(p + [x], k) == FirstIndex(p, k)
  {
    forall k | k in p ensures FirstIndex(p + [x], k) == FirstIndex(p, k) {
      FirstIndexAppend(p, x, k);
    }
  }

  /** The counting loop, when it does not throw, establishes CountsOf. */
  lemma {:induction false} CountKeysCounts(ks: seq<string>)
    requires CountKeys(ks).Ok?
    ensures CountsOf(ks, CountKeys(ks).value)
  {
    if ks != [] {
      var p := ks[..|ks| - 1];
      assert ks == p + [ks[|ks| - 1]];
      CountKeysCounts(p);
      CountStepKeepsCounts(p, ks[|ks| - 1], CountKeys(p).value);
    }
  }

  lemma HasOwnCounted(p: seq<string>, t: Tally)
    requires CountsOf(p, t)
    ensures HasOwnKey in t.count <==> HasOwnKey in p
  {
    if HasOwnKey in t.count {
      assert HasOwnKey in t.created;
      var i :| 0 <= i < |t.created| && t.created[i] == HasOwnKey;
      assert t.created[i] in p;
    }
    if HasOwnKey in p {
      var i :| 0 <= i < |p| && p[i] == HasOwnKey;
      assert p[i] != ProtoKey;
    }
  }

  lemma CountKeysHasOwn(p: seq<string>)
    requires CountKeys(p).Ok?
    ensures HasOwnKey in CountKeys(p).value.count <==> HasOwnKey in p
  {
    CountKeysCounts(p);
    HasOwnCounted(p, CountKeys(p).value);
  }

  /** After the counting loop, every key in `for...in` order has a count. */
  lemma CountKeysCounted(ks: seq<string>)
    requires CountKeys(ks).Ok?
    ensures Counted(ForInOrder(CountKeys(ks).value.created), CountKeys(ks).value.count)
  {
    var t := CountKeys(ks).value;
    CountKeysCounts(ks);
    assert Tracked(t);
    PropertiesCounted(t.count, t.created);
  }

  /** The counting loop throws exactly when a key other than the last one
      is "hasOwnProperty". */
  lemma {:induction false} CountKeysThrows(ks: seq<string>)
    ensures CountKeys(ks).Err? <==> exists i :: 0 <= i < |ks| - 1 && ks[i] == HasOwnKey
  {
    if ks != [] {
      var p := ks[..|ks| - 1];
      CountKeysThrows(p);
      if CountKeys(p).Ok? {
        CountKeysHasOwn(p);
        if HasOwnKey in p {
          var i :| 0 <= i < |p| && p[i] == HasOwnKey;
          assert ks[i] == HasOwnKey;
        }
        if exists i :: 0 <= i < |ks| - 1 && ks[i] == HasOwnKey {
          var i :| 0 <= i < |ks| - 1 && ks[i] == HasOwnKey;
          assert p[i] == HasOwnKey;
        }
      } else {
        var i :| 0 <= i < |p| - 1 && p[i] == HasOwnKey;
        assert ks[i] == HasOwnKey;
      }
    }
  }

  /** The `i`th bucket is that of the `i`th key. */
  lemma {:induction false} EmitAt(keys: seq<string>, count: map<string, nat>, total: nat, i: nat)
    requires Counted(keys, count)
    requires keys != [] ==> total > 0
    requires i < |keys|
    ensures Emit(keys, count, total)[i] == Bucket(keys[i], Percent(count[keys[i]], total))
  {
    var n := |keys| - 1;
    if i < n {
      EmitAt(keys[..n], count, total, i);
    }
  }

  lemma PercentAdd(a: nat, b: nat, total: nat)
    requires total > 0
    ensures Percent(a, total) + Percent(b, total) == Percent(a + b, total)
  {
    var t := total as real;
    assert (a as real / t) + (b as real / t) == (a + b) as real / t;
  }

  /** The percentages of the buckets add up to the percentage of the sum of
      their counts. */
  lemma {:induction false} EmitSum(keys: seq<string>, count: map<string, nat>, total: nat)
    requires Counted(keys, count)
    requires total > 0
    ensures PercentSum(Emit(keys, count, total)) == Percent(CountSum(keys, count), total)
  {
    if keys != [] {
      var n := |keys| - 1;
      var p := keys[..n];
      var k := keys[n];
      var bs := Emit(keys, count, total);
      assert bs[..n] == Emit(p, count, total);
      assert PercentSum(bs) == PercentSum(Emit(p, count, total)) + Percent(count[k], total);
      EmitSum(p, count, total);
      PercentAdd(CountSum(p, count), count[k], total);
    }
  }

  /** Keys that are not array indices keep the order of first occurrence
      when the array-index keys are taken out. */
  lemma {:induction false} NamedKeysInFirstOccurrenceOrder(s: seq<string>, ks: seq<string>)
    requires InFirstOccurrenceOrder(s, ks)
    ensures InFirstOccurrenceOrder(NamedKeys(s), ks)
  {
    if s != [] {
      var rest := s[1..];
      FirstOccurrenceTail(s, ks);
      NamedKeysInFirstOccurrenceOrder(rest, ks);
      if !IsArrayIndex(s[0]) {
        NamedKeysWithin(rest);
        assert AllIn(NamedKeys(rest), rest);
        FirstOccurrenceCons(s, ks, NamedKeys(rest));
        assert NamedKeys(s) == [s[0]] + NamedKeys(rest);
      } else {
        assert NamedKeys(s) == NamedKeys(rest);
      }
    }
  }

  lemma FirstOccurrenceTail(s: seq<string>, ks: seq<string>)
    requires InFirstOccurrenceOrder(s, ks) && s != []
    ensures InFirstOccurrenceOrder(s[1..], ks)
  {
    var rest := s[1..];
    forall i, j | 0 <= i < j < |rest|
      ensures FirstIndex(ks, rest[i]) < FirstIndex(ks, rest[j])
    {
      assert rest[i] == s[i + 1] && rest[j] == s[j + 1];
    }
  }

  /** Putting the head of `s` in front of an ordered selection `n` from the
      rest keeps the order. */
  lemma FirstOccurrenceCons(s: seq<string>, ks: seq<string>, n: seq<string>)
    requires InFirstOccurrenceOrder(s, ks) && s != []
    requires InFirstOccurrenceOrder(n, ks)
    requires AllIn(n, s[1..])
    ensures InFirstOccurrenceOrder([s[0]] + n, ks)
  {
    var r := [s[0]] + n;
    HeadFirst(s, ks, n);
    forall i, j | 0 <= i < j < |r| ensures FirstIndex(ks, r[i]) < FirstIndex(ks, r[j]) {
      assert r[j] == n[j - 1];
      if i > 0 {
        assert r[i] == n[i - 1];
      }
    }
    forall i | 0 <= i < |r| ensures r[i] in ks {
      if i > 0 {
        assert r[i] == n[i - 1];
      }
    }
  }

  /** The head of `s` occurs first among the records' keys before every
      later key of `s`. */
  lemma HeadFirst(s: seq<string>, ks: seq<string>, n: seq<string>)
    requires InFirstOccurrenceOrder(s, ks) && s != []
    requires AllIn(n, s[1..]) && AllIn(n, ks)
    ensures forall j :: 0 <= j < |n| ==> FirstIndex(ks, s[0]) < FirstIndex(ks, n[j])
  {
    var rest := s[1..];
    forall j | 0 <= j < |n| ensures FirstIndex(ks, s[0]) < FirstIndex(ks, n[j]) {
      var m :| 0 <= m < |rest| && rest[m] == n[j];
      assert s[m + 1] == n[j];
    }
  }

  // ---------------------------------------------------------------------
  // What getPercentages promises

  /** getPercentages throws a TypeError exactly when some record other than
      the last one carries the value "hasOwnProperty"; otherwise it returns
      its buckets normally, also for records that lack the field. */
  lemma ThrowsExactly(people: seq<Record>, keyword: Option<string>)
    ensures Percentages(people, keyword).Err? <==>
      exists i :: 0 <= i < |people| - 1 && KeyOf(people[i], Keyword(keyword)) == HasOwnKey
  {
    var ks := KeysOf(people, Keyword(keyword));
    CountKeysThrows(ks);
    if exists i :: 0 <= i < |people| - 1 && KeyOf(people[i], Keyword(keyword)) == HasOwnKey {
      var i :| 0 <= i < |people| - 1 && KeyOf(people[i], Keyword(keyword)) == HasOwnKey;
      assert ks[i] == HasOwnKey;
    }
  }

  /** The intermediate state of a call that returns normally: the keys of
      the records, the object `count` after the counting loop, and its keys
      in `for...in` order. */
  lemma Outcome(people: seq<Record>, keyword: Option<string>) returns (ks: seq<string>, t: Tally, keys: seq<string>)
    requires Percentages(people, keyword).Ok?
    ensures ks == KeysOf(people, Keyword(keyword)) && CountsOf(ks, t)
    ensures keys == ForInOrder(t.created)
    ensures Counted(keys, t.count)
    ensures |keys| <= |people|
    ensures Percentages(people, keyword).value == Emit(keys, t.count, |people|)
  {
    ks := KeysOf(people, Keyword(keyword));
    t := CountKeys(ks).value;
    keys := ForInOrder(t.created);
    CountKeysCounts(ks);
    CountKeysCounted(ks);
  }

  /** The categories of the buckets are the keys, in the same order. */
  lemma Categories(keys: seq<string>, count: map<string, nat>, total: nat)
    requires Counted(keys, count)
    requires keys != [] ==> total > 0
    ensures var bs := Emit(keys, count, total);
      forall i :: 0 <= i < |bs| ==> bs[i].category == keys[i]
  {
    var bs := Emit(keys, count, total);
    forall i | 0 <= i < |bs| ensures bs[i].category == keys[i] {
      EmitAt(keys, count, total, i);
    }
  }

  /** The buckets' categories are distinct; each is the key of some record;
      and the key of every record, except the key "__proto__", is a
      category. So each such key has exactly one bucket. */
  lemma OneBucketPerKey(people: seq<Record>, keyword: Option<string>)
    requires Percentages(people, keyword).Ok?
    ensures var bs := Percentages(people, keyword).value;
      var ks := KeysOf(people, Keyword(keyword));
      && (forall i, j :: 0 <= i < j < |bs| ==> bs[i].category != bs[j].category)
      && (forall i :: 0 <= i < |bs| ==> bs[i].category in ks && bs[i].category != ProtoKey)
      && (forall i :: 0 <= i < |ks| && ks[i] != ProtoKey ==>
            exists j :: 0 <= j < |bs| && bs[j].category == ks[i])
  {
    var ks, t, keys := Outcome(people, keyword);
    BucketsPerKey(ks, t, keys, |people|);
  }

  lemma BucketsPerKey(ks: seq<string>, t: Tally, keys: seq<string>, total: nat)
    requires Tracked(t) && Covers(ks, t) && InFirstOccurrenceOrder(t.created, ks)
    requires keys == ForInOrder(t.created) && Counted(keys, t.count) && (keys != [] ==> total > 0)
    ensures var bs := Emit(keys, t.count, total);
      && (forall i, j :: 0 <= i < j < |bs| ==> bs[i].category != bs[j].category)
      && (forall i :: 0 <= i < |bs| ==> bs[i].category in ks && bs[i].category != ProtoKey)
      && (forall i :: 0 <= i < |ks| && ks[i] != ProtoKey ==>
            exists j :: 0 <= j < |bs| && bs[j].category == ks[i])
  {
    var bs := Emit(keys, t.count, total);
    ForInOrderNoDuplicates(t.created);
    Categories(keys, t.count, total);
    KeysFromRecords(ks, t, keys);
    RecordsHaveKeys(ks, t, keys);
    forall i | 0 <= i < |ks| && ks[i] != ProtoKey
      ensures exists j :: 0 <= j < |bs| && bs[j].category == ks[i]
    {
      var j :| 0 <= j < |keys| && keys[j] == ks[i];
      assert bs[j].category == ks[i];
    }
  }

  /** Every key `for...in` visits is the key of some record, and not
      "__proto__". */
  lemma KeysFromRecords(ks: seq<string>, t: Tally, keys: seq<string>)
    requires Tracked(t) && InFirstOccurrenceOrder(t.created, ks) && keys == ForInOrder(t.created)
    ensures forall i :: 0 <= i < |keys| ==> keys[i] in ks && keys[i] != ProtoKey
  {
    ForInOrderPermutes(t.created);
    forall i | 0 <= i < |keys| ensures keys[i] in ks && keys[i] != ProtoKey {
      assert keys[i] in multiset(t.created);
      var m :| 0 <= m < |t.created| && t.created[m] == keys[i];
    }
  }

  /** `for...in` visits the key of every record, except "__proto__". */
  lemma RecordsHaveKeys(ks: seq<string>, t: Tally, keys: seq<string>)
    requires Tracked(t) && Covers(ks, t) && keys == ForInOrder(t.created)
    ensures forall i :: 0 <= i < |ks| && ks[i] != ProtoKey ==> exists j :: 0 <= j < |keys| && keys[j] == ks[i]
  {
    ForInOrderPermutes(t.created);
    forall i | 0 <= i < |ks| && ks[i] != ProtoKey
      ensures exists j :: 0 <= j < |keys| && keys[j] == ks[i]
    {
      assert ks[i] in t.created;
      assert ks[i] in multiset(keys);
    }
  }

  /** Each bucket's count is the number of records carrying its category,
      between 1 and the number of records, and its percentage is that count
      out of all records. */
  lemma BucketShares(people: seq<Record>, keyword: Option<string>)
    requires Percentages(people, keyword).Ok?
    ensures var bs := Percentages(people, keyword).value;
      var ks := KeysOf(people, Keyword(keyword));
      && |bs| <= |people|
      && forall i :: 0 <= i < |bs| ==>
           && 1 <= multiset(ks)[bs[i].category] <= |people|
           && bs[i].percentage == Percent(multiset(ks)[bs[i].category], |people|)
  {
    var ks, t, keys := Outcome(people, keyword);
    Shares(ks, t, keys, |people|);
  }

  lemma Shares(ks: seq<string>, t: Tally, keys: seq<string>, total: nat)
    requires CountsMatch(ks, t) && AllIn(t.created, ks)
    requires keys == ForInOrder(t.created) && Counted(keys, t.count)
    requires total == |ks| && |keys| <= total
    ensures var bs := Emit(keys, t.count, total);
      forall i :: 0 <= i < |bs| ==>
           && 1 <= multiset(ks)[bs[i].category] <= total
           && bs[i].percentage == Percent(multiset(ks)[bs[i].category], total)
  {
    var bs := Emit(keys, t.count, total);
    ForInOrderPermutes(t.created);
    forall i | 0 <= i < |bs|
      ensures 1 <= multiset(ks)[bs[i].category] <= total
      ensures bs[i].percentage == Percent(multiset(ks)[bs[i].category], total)
    {
      EmitAt(keys, t.count, total, i);
      ShareOf(ks, t, keys[i]);
    }
  }

  /** The count of a property is the number of occurrences of its key. */
  lemma ShareOf(ks: seq<string>, t: Tally, k: string)
    requires CountsMatch(ks, t) && AllIn(t.created, ks) && k in multiset(t.created)
    ensures k in t.count && t.count[k] == multiset(ks)[k]
    ensures 1 <= multiset(ks)[k] <= |ks|
  {
    var m :| 0 <= m < |t.created| && t.created[m] == k;
    assert k in ks;
    assert multiset(ks)[k] <= |multiset(ks)|;
  }

  /** The buckets count every record except those carrying "__proto__":
      their percentages and the share of those records add up to 100. */
  lemma PercentagesSum(people: seq<Record>, keyword: Option<string>)
    requires Percentages(people, keyword).Ok? && |people| > 0
    ensures var ks := KeysOf(people, Keyword(keyword));
      PercentSum(Percentages(people, keyword).value) + Percent(multiset(ks)[ProtoKey], |people|) == 100.0
  {
    var ks, t, keys := Outcome(people, keyword);
    SumOfShares(ks, t, keys);
  }

  /** With at least one record and none carrying "__proto__", the
      percentages add up to exactly 100. */
  lemma PercentagesSumTo100(people: seq<Record>, keyword: Option<string>)
    requires Percentages(people, keyword).Ok? && |people| > 0
    requires ProtoKey !in KeysOf(people, Keyword(keyword))
    ensures PercentSum(Percentages(people, keyword).value) == 100.0
  {
    var ks, t, keys := Outcome(people, keyword);
    SumOfShares(ks, t, keys);
  }

  /** The shares of the buckets add up to the share of the keys other than
      "__proto__"; to 100 when there is no such key. */
  lemma SumOfShares(ks: seq<string>, t: Tally, keys: seq<string>)
    requires SumMatches(ks, t) && keys == ForInOrder(t.created) && Counted(keys, t.count)
    requires |ks| > 0
    ensures PercentSum(Emit(keys, t.count, |ks|)) + Percent(multiset(ks)[ProtoKey], |ks|) == 100.0
    ensures ProtoKey !in ks ==> PercentSum(Emit(keys, t.count, |ks|)) == 100.0
  {
    SumOfCounts(ks, t, keys);
    EmitSum(keys, t.count, |ks|);
    PercentsOfAll(CountSum(keys, t.count), multiset(ks)[ProtoKey], |ks|);
    if ProtoKey !in ks {
      assert multiset(ks)[ProtoKey] == 0;
      PercentOfNone(|ks|);
    }
  }

  /** The counts of the keys in `for...in` order add up to the number of
      keys other than "__proto__". */
  lemma SumOfCounts(ks: seq<string>, t: Tally, keys: seq<string>)
    requires SumMatches(ks, t) && keys == ForInOrder(t.created)
    ensures CountSum(keys, t.count) + multiset(ks)[ProtoKey] == |ks|
  {
    ForInOrderPermutes(t.created);
    CountSumPermutation(keys, t.created, t.count);
  }

  /** Two parts of a whole make 100 percent of it. */
  lemma PercentsOfAll(a: nat, b: nat, total: nat)
    requires total > 0 && a + b == total
    ensures Percent(a, total) + Percent(b, total) == 100.0
  {
    PercentAdd(a, b, total);
    PercentOfAll(total);
  }

  lemma PercentOfNone(n: nat)
    requires n > 0
    ensures Percent(0, n) == 0.0
  {
  }

  lemma PercentOfAll(n: nat)
    requires n > 0
    ensures Percent(n, n) == 100.0
  {
    var m := n as real;
    assert m / m == 1.0;
  }

  /** Bucket order is the `for...in` order of `count`: categories that are
      array indices come first, in ascending numeric order; the others
      follow in the order in which each was first seen. */
  lemma BucketOrder(people: seq<Record>, keyword: Option<string>)
    requires Percentages(people, keyword).Ok?
    ensures var bs := Percentages(people, keyword).value;
      forall i, j :: 0 <= i < j < |bs| && IsArrayIndex(bs[j].category) ==>
        IsArrayIndex(bs[i].category) && IndexValue(bs[i].category) < IndexValue(bs[j].category)
    ensures var bs := Percentages(people, keyword).value;
      var ks := KeysOf(people, Keyword(keyword));
      forall i, j :: 0 <= i < j < |bs| && !IsArrayIndex(bs[i].category) && !IsArrayIndex(bs[j].category) ==>
        bs[i].category in ks && bs[j].category in ks &&
        FirstIndex(ks, bs[i].category) < FirstIndex(ks, bs[j].category)
  {
    var ks, t, keys := Outcome(people, keyword);
    var bs := Percentages(people, keyword).value;
    Categories(keys, t.count, |people|);
    ForInOrderIndicesFirst(t.created);
    NamedOrder(ks, t, keys);
  }

  /** In `for...in` order, the keys that are not array indices are in the
      order of their first occurrence among the records' keys. */
  lemma NamedOrder(ks: seq<string>, t: Tally, keys: seq<string>)
    requires InFirstOccurrenceOrder(t.created, ks) && keys == ForInOrder(t.created)
    ensures forall i, j :: 0 <= i < j < |keys| && !IsArrayIndex(keys[i]) && !IsArrayIndex(keys[j]) ==>
      keys[i] in ks && keys[j] in ks && FirstIndex(ks, keys[i]) < FirstIndex(ks, keys[j])
  {
    var a := SortBy(IndexKeys(t.created), IndexValue);
    var b := NamedKeys(t.created);
    assert keys == a + b;
    SortedIndices(IndexKeys(t.created));
    NamedKeysInFirstOccurrenceOrder(t.created, ks);
    forall i | 0 <= i < |a| ensures IsArrayIndex(keys[i]) {
      assert keys[i] == a[i];
    }
    forall i, j | 0 <= i < j < |keys| && !IsArrayIndex(keys[i]) && !IsArrayIndex(keys[j])
      ensures keys[i] in ks && keys[j] in ks && FirstIndex(ks, keys[i]) < FirstIndex(ks, keys[j])
    {
      assert keys[i] == b[i - |a|] && keys[j] == b[j - |a|];
    }
  }

  /** Without records there are no buckets. */
  lemma NoRecordsNoBuckets(keyword: Option<string>)
    ensures Percentages([], keyword) == Ok([])
  {
    assert CountKeys(KeysOf([], Keyword(keyword))) == Ok(Tally(map[], []));
  }

  /** The pie chart component names the field by its title: a title that
      lower-cases to "gender" groups as the default keyword does. */
  lemma TitleSelectsKeyword(list: seq<Record>, title: string)
    requires ToLowerCase(title) == DefaultKeyword
    ensures Percentages(list, Some(ToLowerCase(title))) == Percentages(list, None)
  {
  }

  /** A record whose field is missing lands in the same bucket as one whose
      field is the string "undefined", and in no other. */
  lemma MissingFieldKey(person: Record, keyword: string)
    ensures KeyOf(person, keyword) == "undefined" <==>
      Lookup(person, keyword) == JsUndefined || Lookup(person, keyword) == JsString("undefined")
  {
    var v := Lookup(person, keyword);
    if v.JsInt? {
      assert ToPropertyKey(v)[0] in "-0123456789";
    }
  }

  /** Under a field whose values are not strings, two records share a bucket
      exactly when their values are equal; a number and its decimal string
      (30 and "30") always share one. */
  lemma SameBucket(p: Record, q: Record, keyword: string)
    ensures !Lookup(p, keyword).JsString? && !Lookup(q, keyword).JsString? ==>
      (KeyOf(p, keyword) == KeyOf(q, keyword) <==> Lookup(p, keyword) == Lookup(q, keyword))
    ensures Lookup(p, keyword).JsInt? && Lookup(q, keyword) == JsString(IntToDecimal(Lookup(p, keyword).n)) ==>
      KeyOf(p, keyword) == KeyOf(q, keyword)
  {
    var v, w := Lookup(p, keyword), Lookup(q, keyword);
    if !v.JsString? && !w.JsString? && v != w {
      if v.JsInt? {
        IntKeysInjective(v, w);
      } else if w.JsInt? {
        IntKeysInjective(w, v);
      }
    }
  }

  /** A title naming a field that no record has puts every record into the
      bucket "undefined": one slice of 100 percent. */
  lemma TitleFieldMissing(list: seq<Record>, title: string)
    requires |list| > 0
    requires forall i :: 0 <= i < |list| ==> ToLowerCase(title) !in list[i]
    ensures Percentages(list, Some(ToLowerCase(title))) == Ok([Bucket("undefined", 100.0)])
  {
    var ks := KeysOf(list, ToLowerCase(title));
    var u := "undefined";
    assert forall i :: 0 <= i < |ks| ==> ks[i] == u;
    CountOneKey(ks, u);
    var t := Tally(map[u := |ks|], [u]);
    assert !IsArrayIndex(u) by {
      assert !IsDigit(u[0]);
    }
    var one: seq<string> := [u];
    assert one[1..] == [];
    assert NamedKeys(one[1..]) == [] && IndexKeys(one[1..]) == [];
    assert NamedKeys(one) == [u] + [];
    assert IndexKeys(one) == [] + [];
    assert ForInOrder(t.created) == one;
    PercentOfAll(|list|);
    assert Emit([u], t.count, |list|) == [Bucket(u, 100.0)];
  }

  /** Counting records that all carry the same ordinary key `k` leaves one
      property, `k`, holding the number of records. */
  lemma {:induction false} CountOneKey(ks: seq<string>, k: string)
    requires |ks| > 0 && k != ProtoKey && k != HasOwnKey
    requires forall i :: 0 <= i < |ks| ==> ks[i] == k
    ensures CountKeys(ks) == Ok(Tally(map[k := |ks|], [k]))
  {
    var n := |ks| - 1;
    assert ks[n] == k;
    if n == 0 {
      assert ks[..n] == [];
      var empty := Tally(map[], []);
      assert CountKeys(ks) == CountStep(empty, k);
      assert CountStep(empty, k) == Ok(Tally(map[][k := 1], [] + [k]));
      assert map[][k := 1] == map[k := 1] && [] + [k] == [k];
    } else {
      CountOneKey(ks[..n], k);
      var t := Tally(map[k := n], [k]);
      assert CountKeys(ks) == CountStep(t, k);
      assert t.count[k := t.count[k] + 1] == map[k := n + 1];
    }
  }

  // ---------------------------------------------------------------------
  // Worked examples

  /** The outcome of a call, step by step: the records' keys `ks`, the
      object `count` after the counting loop `t`, its `for...in` order `keys`
      and the buckets `bs`. */
  lemma PercentagesFrom(people: seq<Record>, keyword: Option<string>, ks: seq<string>, t: Tally,
                        keys: seq<string>, bs: seq<Bucket>)
    requires KeysOf(people, Keyword(keyword)) == ks && CountKeys(ks) == Ok(t)
    requires ForInOrder(t.created) == keys && Counted(keys, t.count) && |people| > 0
    requires Emit(keys, t.count, |people|) == bs
    ensures Percentages(people, keyword) == Ok(bs)
  {
  }

  lemma Thirds()
    ensures Percent(1, 3) == 100.0 / 3.0 && Percent(2, 3) == 200.0 / 3.0
  {
  }

  /** Records whose field is 'F', 'F' and 'M' give F at two thirds and M
      at one third, F first because it was seen first. */
  lemma ExampleTwoToOne(a: Record, b: Record, c: Record)
    requires Lookup(a, "gender") == JsString("F") && Lookup(b, "gender") == JsString("F")
    requires Lookup(c, "gender") == JsString("M")
    ensures Percentages([a, b, c], None) == Ok([Bucket("F", 200.0 / 3.0), Bucket("M", 100.0 / 3.0)])
  {
    var ks := ["F", "F", "M"];
    var t := Tally(map["F" := 2, "M" := 1], ["F", "M"]);
    var keys := ["F", "M"];
    assert KeysOf([a, b, c], "gender") == ks;
    CountTwoToOne();
    OrderTwoToOne();
    assert Counted(keys, t.count);
    EmitTwoToOne();
    PercentagesFrom([a, b, c], None, ks, t, keys, [Bucket("F", 200.0 / 3.0), Bucket("M", 100.0 / 3.0)]);
  }

  lemma CountTwoToOne()
    ensures CountKeys(["F", "F", "M"]) == Ok(Tally(map["F" := 2, "M" := 1], ["F", "M"]))
  {
    var ks := ["F", "F", "M"];
    assert ks[..2] == ["F", "F"] && ks[..2][..1] == ["F"] && ks[..2][..1][..0] == [];
    assert "F" != ProtoKey && "F" != HasOwnKey && "M" != ProtoKey && "M" != HasOwnKey;
    assert [] + ["F"] == ["F"];
    var t1 := Tally(map["F" := 1], ["F"]);
    assert CountKeys(["F"]) == Ok(t1);
    var t2 := Tally(map["F" := 2], ["F"]);
    assert t1.count["F" := 2] == t2.count;
    assert CountKeys(["F", "F"]) == Ok(t2);
    assert t2.created + ["M"] == ["F", "M"];
  }

  lemma OrderTwoToOne()
    ensures ForInOrder(["F", "M"]) == ["F", "M"]
  {
    assert !IsArrayIndex("F") && !IsArrayIndex("M");
    assert ["F", "M"][1..] == ["M"] && ["M"][1..] == [];
    assert IndexKeys(["F", "M"]) == [];
    assert NamedKeys(["F", "M"]) == ["F", "M"];
  }

  lemma EmitTwoToOne()
    ensures Emit(["F", "M"], map["F" := 2, "M" := 1], 3) == [Bucket("F", 200.0 / 3.0), Bucket("M", 100.0 / 3.0)]
  {
    var count := map["F" := 2, "M" := 1];
    EmitTwo(["F", "M"], count, 3);
    assert count["F"] == 2 && count["M"] == 1;
    Thirds();
  }

  /** The buckets of two keys. */
  lemma EmitTwo(keys: seq<string>, count: map<string, nat>, total: nat)
    requires |keys| == 2 && Counted(keys, count) && total > 0
    ensures Emit(keys, count, total) ==
      [Bucket(keys[0], Percent(count[keys[0]], total)), Bucket(keys[1], Percent(count[keys[1]], total))]
  {
    assert keys[..1][..0] == [];
  }

  /** The buckets of three keys. */
  lemma EmitThree(keys: seq<string>, count: map<string, nat>, total: nat)
    requires |keys| == 3 && Counted(keys, count) && total > 0
    ensures Emit(keys, count, total) ==
      [Bucket(keys[0], Percent(count[keys[0]], total)), Bucket(keys[1], Percent(count[keys[1]], total)),
       Bucket(keys[2], Percent(count[keys[2]], total))]
  {
    EmitTwo(keys[..2], count, total);
  }

  /** Records whose field is 30, missing (or undefined) and 25: a record
      without the field is counted under "undefined", and numeric values are
      array-index keys, which come first, in ascending order. */
  lemma ExampleMissingFieldAndNumbers(a: Record, b: Record, c: Record)
    requires Lookup(a, "age") == JsInt(30) && Lookup(b, "age") == JsUndefined && Lookup(c, "age") == JsInt(25)
    ensures Percentages([a, b, c], Some("age"))
      == Ok([Bucket("25", 100.0 / 3.0), Bucket("30", 100.0 / 3.0), Bucket("undefined", 100.0 / 3.0)])
  {
    var ks := ["30", "undefined", "25"];
    var t := Tally(map["30" := 1, "undefined" := 1, "25" := 1], ["30", "undefined", "25"]);
    var keys := ["25", "30", "undefined"];
    assert KeysOf([a, b, c], "age") == ks by {
      assert NatToDecimal(30) == "30" && NatToDecimal(25) == "25";
    }
    CountMissingFieldAndNumbers();
    OrderMissingFieldAndNumbers();
    assert Counted(keys, t.count);
    EmitMissingFieldAndNumbers();
    PercentagesFrom([a, b, c], Some("age"), ks, t, keys,
                    [Bucket("25", 100.0 / 3.0), Bucket("30", 100.0 / 3.0), Bucket("undefined", 100.0 / 3.0)]);
  }

  lemma CountMissingFieldAndNumbers()
    ensures CountKeys(["30", "undefined", "25"]) ==
      Ok(Tally(map["30" := 1, "undefined" := 1, "25" := 1], ["30", "undefined", "25"]))
  {
    var ks := ["30", "undefined", "25"];
    assert ks[..2] == ["30", "undefined"] && ks[..2][..1] == ["30"] && ks[..2][..1][..0] == [];
    assert "30" != ProtoKey && "30" != HasOwnKey && "25" != ProtoKey && "25" != HasOwnKey;
    assert "undefined" != ProtoKey && "undefined" != HasOwnKey;
    assert [] + ["30"] == ["30"];
    var t1 := Tally(map["30" := 1], ["30"]);
    assert CountKeys(["30"]) == Ok(t1);
    var t2 := Tally(map["30" := 1, "undefined" := 1], ["30", "undefined"]);
    assert t1.created + ["undefined"] == t2.created;
    assert CountKeys(["30", "undefined"]) == Ok(t2);
    assert t2.created + ["25"] == ks;
  }

  lemma OrderMissingFieldAndNumbers()
    ensures ForInOrder(["30", "undefined", "25"]) == ["25", "30", "undefined"]
  {
    var created := ["30", "undefined", "25"];
    IndexKeysMissing();
    NamedKeysMissing();
    SortMissing();
  }

  lemma IndexKeysMissing()
    ensures IndexKeys(["30", "undefined", "25"]) == ["30", "25"]
  {
    var created := ["30", "undefined", "25"];
    assert IsArrayIndex("30") && IsArrayIndex("25") && !IsArrayIndex("undefined") by {
      assert Canonical("30") && Canonical("25") && !IsDigit('u');
      assert DecimalValue("30") == 30 && DecimalValue("25") == 25;
    }
    assert created[1..] == ["undefined", "25"] && created[1..][1..] == ["25"] && ["25"][1..] == [];
  }

  lemma NamedKeysMissing()
    ensures NamedKeys(["30", "undefined", "25"]) == ["undefined"]
  {
    var created := ["30", "undefined", "25"];
    assert IsArrayIndex("30") && IsArrayIndex("25") && !IsArrayIndex("undefined") by {
      assert Canonical("30") && Canonical("25") && !IsDigit('u');
      assert DecimalValue("30") == 30 && DecimalValue("25") == 25;
    }
    assert created[1..] == ["undefined", "25"] && created[1..][1..] == ["25"] && ["25"][1..] == [];
  }

  lemma SortMissing()
    ensures SortBy(["30", "25"], IndexValue) == ["25", "30"]
  {
    assert IndexValue("25") < IndexValue("30") by {
      assert Canonical("30") && Canonical("25");
      assert "30"[..1] == "3" && "25"[..1] == "2" && "3"[..0] == "" && "2"[..0] == "";
      assert DecimalValue("30") == 30 && DecimalValue("25") == 25;
    }
    SortTwo("30", "25", IndexValue);
  }

  /** Two keys out of order are swapped. */
  lemma SortTwo(x: string, y: string, rank: string -> nat)
    requires rank(y) < rank(x)
    ensures SortBy([x, y], rank) == [y, x]
  {
    assert [x, y][1..] == [y] && [y][1..] == [];
    assert SortBy([y], rank) == [y];
    assert InsertBy(x, [y], rank) == [y] + InsertBy(x, [], rank);
  }

  lemma EmitMissingFieldAndNumbers()
    ensures Emit(["25", "30", "undefined"], map["30" := 1, "undefined" := 1, "25" := 1], 3)
      == [Bucket("25", 100.0 / 3.0), Bucket("30", 100.0 / 3.0), Bucket("undefined", 100.0 / 3.0)]
  {
    var count := map["30" := 1, "undefined" := 1, "25" := 1];
    EmitThree(["25", "30", "undefined"], count, 3);
    assert count["25"] == 1 && count["30"] == 1 && count["undefined"] == 1;
    Thirds();
  }

  /** A record carrying "hasOwnProperty" followed by any other record makes
      getPercentages throw. */
  lemma ExampleHasOwnPropertyThrows(a: Record, b: Record)
    requires Lookup(a, "gender") == JsString("hasOwnProperty")
    ensures Percentages([a, b], None).Err?
  {
    ThrowsExactly([a, b], None);
    assert KeyOf([a, b][0], "gender") == HasOwnKey;
  }
}
