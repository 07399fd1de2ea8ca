/** The split at the level of keys, for any keys at all: membership by counting and the balance of any weight. */
module SplitProperties {
  import opened Results
  import opened Seqs
  import opened CoinInfo
  import opened InsertionMap
  import opened ZswapOffer
  import opened Sums

  function KeyOf<V>(k: Keyed<V>): string {
    match k.key case Ok(key) => key case Err(_) => ""
  }

  function Keys<V>(s: seq<Keyed<V>>): seq<string> {
    if s == [] then [] else Keys(s[..|s| - 1]) + [KeyOf(s[|s| - 1])]
  }

  predicate AllSerialised<V>(s: seq<Keyed<V>>) {
    forall i :: 0 <= i < |s| ==> s[i].key.Ok?
  }

  // Membership

  lemma {:induction false} OutputTableMeaning<V>(outputs: seq<Keyed<V>>)
    requires OutputTable(outputs).Ok?
    ensures Valid(OutputTable(outputs).value)
    ensures forall k :: k in AsMap(OutputTable(outputs).value) <==> k in Keys(outputs)
    ensures forall k :: k in AsMap(OutputTable(outputs).value) ==>
      exists i :: 0 <= i < |outputs| && KeyOf(outputs[i]) == k && AsMap(OutputTable(outputs).value)[k] == outputs[i].item
  {
    if outputs != [] {
      var front, last := outputs[..|outputs| - 1], outputs[|outputs| - 1];
      OutputTableMeaning(front);
      var t := OutputTable(front).value;
      SetMeaning(t, last.key.value, last.item);
      forall k | k in AsMap(t)
        ensures exists i :: 0 <= i < |outputs| && KeyOf(outputs[i]) == k && AsMap(t)[k] == outputs[i].item
      {
        var i :| 0 <= i < |front| && KeyOf(front[i]) == k && AsMap(t)[k] == front[i].item;
        assert front[i] == outputs[i];
      }
    }
  }

  /** Output `i` is the last with its key. */
  predicate LastWithKey<V>(outputs: seq<Keyed<V>>, i: int) {
    0 <= i < |outputs| && forall j :: i < j < |outputs| ==> KeyOf(outputs[j]) != KeyOf(outputs[i])
  }

  lemma {:induction false} OutputTableExists<V>(outputs: seq<Keyed<V>>)
    ensures OutputTable(outputs).Ok? <==> AllSerialised(outputs)
  {
    if outputs != [] {
      var front := outputs[..|outputs| - 1];
      OutputTableExists(front);
      assert forall i :: 0 <= i < |front| ==> front[i] == outputs[i];
    }
  }

  ghost predicate HoldsLast<V>(m: map<string, V>, outputs: seq<Keyed<V>>) {
    forall i :: LastWithKey(outputs, i) ==> KeyOf(outputs[i]) in m && m[KeyOf(outputs[i])] == outputs[i].item
  }

  lemma LastAdded<V>(outputs: seq<Keyed<V>>, m: map<string, V>)
    requires outputs != [] && HoldsLast(m, outputs[..|outputs| - 1])
    ensures HoldsLast(m[KeyOf(outputs[|outputs| - 1]) := outputs[|outputs| - 1].item], outputs)
  {
    var front, last := outputs[..|outputs| - 1], outputs[|outputs| - 1];
    var after := m[KeyOf(last) := last.item];
    forall i | LastWithKey(outputs, i) ensures KeyOf(outputs[i]) in after && after[KeyOf(outputs[i])] == outputs[i].item {
      if i < |front| {
        assert front[i] == outputs[i] && KeyOf(last) != KeyOf(outputs[i]);
        assert LastWithKey(front, i);
      }
    }
  }

  lemma {:induction false} OutputTableLast<V>(outputs: seq<Keyed<V>>)
    requires OutputTable(outputs).Ok?
    ensures HoldsLast(AsMap(OutputTable(outputs).value), outputs)
  {
    if outputs != [] {
      var front, last := outputs[..|outputs| - 1], outputs[|outputs| - 1];
      OutputTableLast(front);
      OutputTableMeaning(front);
      SetMeaning(OutputTable(front).value, last.key.value, last.item);
      LastAdded(outputs, AsMap(OutputTable(front).value));
    }
  }

  /** Building the Map succeeds exactly when every coin serialises; then it holds the last output of each key, and no other. */
  lemma OutputTableIff<V>(outputs: seq<Keyed<V>>)
    ensures OutputTable(outputs).Ok? <==> AllSerialised(outputs)
    ensures OutputTable(outputs).Ok? ==>
              var m := AsMap(OutputTable(outputs).value); HoldsLast(m, outputs) && forall k :: k in m <==> k in Keys(outputs)
  {
    OutputTableExists(outputs);
    if OutputTable(outputs).Ok? {
      OutputTableLast(outputs);
      OutputTableMeaning(outputs);
    }
  }

  /** What one step does to the three Maps. */
  ghost predicate Moves(t: Tables, u: Tables, input: Keyed<CoinObject>, checked: Result<Chain, OfferError>) {
    var key := KeyOf(input);
    && Valid(u.outputs) && Valid(u.inputs) && Valid(u.transients)
    && if key in AsMap(t.outputs) then
         && u.inputs == t.inputs && u.outputs == Delete(t.outputs, key)
         && AsMap(u.outputs) == AsMap(t.outputs) - {key}
         && AsMap(u.transients) == AsMap(t.transients)[key := NewTransient(input.item, AsMap(t.outputs)[key])]
       else
         && checked.Ok? && u.outputs == t.outputs && u.transients == t.transients
         && u.inputs == Set(t.inputs, key, NewInput(input.item, checked.value))
         && AsMap(u.inputs) == AsMap(t.inputs)[key := NewInput(input.item, checked.value)]
  }

  lemma StepMoves(t: Tables, input: Keyed<CoinObject>, checked: Result<Chain, OfferError>)
    requires Valid(t.outputs) && Valid(t.inputs) && Valid(t.transients)
    requires Step(t, input, checked).Ok?
    ensures Moves(t, Step(t, input, checked).value, input, checked)
  {
    var key := KeyOf(input);
    GetMeaning(t.outputs, key);
    if key in AsMap(t.outputs) {
      DeleteMeaning(t.outputs, key);
      SetMeaning(t.transients, key, NewTransient(input.item, AsMap(t.outputs)[key]));
    } else {
      SetMeaning(t.inputs, key, NewInput(input.item, checked.value));
    }
  }

  function Unspent(outs: map<string, UnprovenOutput>, keys: seq<string>): map<string, UnprovenOutput> {
    map k | k in outs && k !in keys :: outs[k]
  }

  /** Which keys stand where after inputs with the given keys. */
  ghost predicate Placed(t: Tables, outs: map<string, UnprovenOutput>, keys: seq<string>) {
    && Valid(t.outputs) && Valid(t.inputs) && Valid(t.transients)
    && AsMap(t.outputs) == Unspent(outs, keys)
    && (forall k :: k in AsMap(t.transients) <==> k in outs && k in keys)
    && (forall k :: k in AsMap(t.inputs) <==> multiset(keys)[k] >= (if k in outs then 2 else 1))
  }

  lemma CountSnoc(keys: seq<string>, key: string)
    ensures forall k :: k in keys <==> multiset(keys)[k] >= 1
    ensures forall k :: k in keys + [key] <==> k in keys || k == key
    ensures forall k :: multiset(keys + [key])[k] == multiset(keys)[k] + (if k == key then 1 else 0)
  {
  }

  lemma MovesPlace(t: Tables, u: Tables, outs: map<string, UnprovenOutput>, keys: seq<string>,
                   input: Keyed<CoinObject>, checked: Result<Chain, OfferError>)
    requires Placed(t, outs, keys) && Moves(t, u, input, checked)
    ensures Placed(u, outs, keys + [KeyOf(input)])
  {
    CountSnoc(keys, KeyOf(input));
    assert AsMap(u.outputs) == Unspent(outs, keys + [KeyOf(input)]);
  }

  /**
    After any inputs, however often they repeat: an output is unspent when no input has its key; it is transient when
    at least one has; and a key is an input when it occurs once more than the outputs can absorb.
   */
  lemma {:induction false} SplitMembership(
    outs: Table<UnprovenOutput>, inputs: seq<Keyed<CoinObject>>, checked: Result<Chain, OfferError>)
    requires Valid(outs) && Split(outs, inputs, checked).Ok?
    ensures Placed(Split(outs, inputs, checked).value, AsMap(outs), Keys(inputs))
  {
    if inputs == [] {
      assert Unspent(AsMap(outs), []) == AsMap(outs);
    } else {
      var front, last := inputs[..|inputs| - 1], inputs[|inputs| - 1];
      SplitMembership(outs, front, checked);
      var t := Split(outs, front, checked).value;
      StepMoves(t, last, checked);
      MovesPlace(t, Split(outs, inputs, checked).value, AsMap(outs), Keys(front), last, checked);
    }
  }

  lemma PlacedDisjoint(t: Tables, outs: map<string, UnprovenOutput>, keys: seq<string>)
    requires Placed(t, outs, keys)
    ensures AsMap(t.outputs).Keys !! AsMap(t.inputs).Keys && AsMap(t.outputs).Keys !! AsMap(t.transients).Keys
    ensures AsMap(t.inputs).Keys !! AsMap(t.transients).Keys <==> forall k :: k in outs ==> multiset(keys)[k] <= 1
  {
    var inputs, transients := AsMap(t.inputs), AsMap(t.transients);
    CountSnoc(keys, "");
    if forall k :: k in outs ==> multiset(keys)[k] <= 1 {
      assert forall k :: k in transients ==> k !in inputs;
    } else {
      var k :| k in outs && multiset(keys)[k] >= 2;
      assert k in transients.Keys && k in inputs.Keys;
    }
  }

  /** The three key sets are disjoint exactly when no output is spent twice; the outputs are disjoint from both always. */
  lemma KeySetsDisjointIff(outs: Table<UnprovenOutput>, inputs: seq<Keyed<CoinObject>>, checked: Result<Chain, OfferError>)
    requires Valid(outs) && Split(outs, inputs, checked).Ok?
    ensures var t := Split(outs, inputs, checked).value;
      && AsMap(t.outputs).Keys !! AsMap(t.inputs).Keys && AsMap(t.outputs).Keys !! AsMap(t.transients).Keys
      && (AsMap(t.inputs).Keys !! AsMap(t.transients).Keys
          <==> forall k :: k in AsMap(outs) ==> multiset(Keys(inputs))[k] <= 1)
  {
    SplitMembership(outs, inputs, checked);
    PlacedDisjoint(Split(outs, inputs, checked).value, AsMap(outs), Keys(inputs));
  }

  ghost predicate InputItem(item: UnprovenInput, key: string, inputs: seq<Keyed<CoinObject>>, checked: Result<Chain, OfferError>) {
    checked.Ok? && exists i :: 0 <= i < |inputs| && KeyOf(inputs[i]) == key && item == NewInput(inputs[i].item, checked.value)
  }

  ghost predicate TransientItem(item: UnprovenTransient, key: string, inputs: seq<Keyed<CoinObject>>, output: UnprovenOutput) {
    exists i :: 0 <= i < |inputs| && KeyOf(inputs[i]) == key && item == NewTransient(inputs[i].item, output)
  }

  /** Every item of a Map was built from an input, or an input and an output, with the entry's key. */
  ghost predicate Built(t: Tables, outs: map<string, UnprovenOutput>, inputs: seq<Keyed<CoinObject>>, checked: Result<Chain, OfferError>) {
    && (forall k :: k in AsMap(t.inputs) ==> InputItem(AsMap(t.inputs)[k], k, inputs, checked))
    && (forall k :: k in AsMap(t.transients) ==> k in outs && TransientItem(AsMap(t.transients)[k], k, inputs, outs[k]))
  }

  lemma ItemsStay(inputs: seq<Keyed<CoinObject>>, input: Keyed<CoinObject>, checked: Result<Chain, OfferError>)
    ensures forall u, k :: InputItem(u, k, inputs, checked) ==> InputItem(u, k, inputs + [input], checked)
    ensures forall u, k, o :: TransientItem(u, k, inputs, o) ==> TransientItem(u, k, inputs + [input], o)
    ensures checked.Ok? ==> InputItem(NewInput(input.item, checked.value), KeyOf(input), inputs + [input], checked)
    ensures forall o :: TransientItem(NewTransient(input.item, o), KeyOf(input), inputs + [input], o)
  {
    var all := inputs + [input];
    assert all[|inputs|] == input && forall i :: 0 <= i < |inputs| ==> all[i] == inputs[i];
  }

  lemma MovesBuild(t: Tables, u: Tables, outs: map<string, UnprovenOutput>, inputs: seq<Keyed<CoinObject>>,
                   input: Keyed<CoinObject>, checked: Result<Chain, OfferError>)
    requires AsMap(t.outputs) == Unspent(outs, Keys(inputs)) && Moves(t, u, input, checked) && Built(t, outs, inputs, checked)
    ensures Built(u, outs, inputs + [input], checked)
  {
    ItemsStay(inputs, input, checked);
    var key := KeyOf(input);
    if key in AsMap(t.outputs) {
      assert AsMap(t.outputs)[key] == outs[key];
    }
  }

  lemma SplitUnspent(outs: Table<UnprovenOutput>, inputs: seq<Keyed<CoinObject>>, checked: Result<Chain, OfferError>)
    requires Valid(outs) && Split(outs, inputs, checked).Ok?
    ensures var t := Split(outs, inputs, checked).value;
      Valid(t.outputs) && Valid(t.inputs) && Valid(t.transients) && AsMap(t.outputs) == Unspent(AsMap(outs), Keys(inputs))
  {
    SplitMembership(outs, inputs, checked);
  }

  lemma {:induction false} SplitBuilds(
    outs: Table<UnprovenOutput>, inputs: seq<Keyed<CoinObject>>, checked: Result<Chain, OfferError>)
    requires Valid(outs) && Split(outs, inputs, checked).Ok?
    ensures Built(Split(outs, inputs, checked).value, AsMap(outs), inputs, checked)
  {
    if inputs != [] {
      var front, last := inputs[..|inputs| - 1], inputs[|inputs| - 1];
      SplitBuilds(outs, front, checked);
      SplitUnspent(outs, front, checked);
      assert front + [last] == inputs;
      StepBuilds(outs, front, last, checked, Split(outs, front, checked).value);
    }
  }

  lemma StepBuilds(
    outs: Table<UnprovenOutput>, front: seq<Keyed<CoinObject>>, last: Keyed<CoinObject>, checked: Result<Chain, OfferError>, t: Tables)
    requires Built(t, AsMap(outs), front, checked) && AsMap(t.outputs) == Unspent(AsMap(outs), Keys(front)) && Valid(t.outputs)
    requires Valid(t.inputs) && Valid(t.transients) && Step(t, last, checked).Ok?
    ensures Built(Step(t, last, checked).value, AsMap(outs), front + [last], checked)
  {
    StepMoves(t, last, checked);
    MovesBuild(t, Step(t, last, checked).value, AsMap(outs), front, last, checked);
  }

  lemma {:induction false} KeysAt<V>(s: seq<Keyed<V>>)
    ensures |Keys(s)| == |s| && forall i :: 0 <= i < |s| ==> Keys(s)[i] == KeyOf(s[i])
  {
    if s != [] {
      KeysAt(s[..|s| - 1]);
    }
  }

  lemma NoRepeatsSnoc(keys: seq<string>, key: string)
    ensures NoRepeats(keys + [key]) <==> NoRepeats(keys) && key !in keys
  {
    var all := keys + [key];
    assert forall i :: 0 <= i < |keys| ==> all[i] == keys[i];
    if key in keys {
      var i :| 0 <= i < |keys| && keys[i] == key;
      assert all[i] == all[|keys|];
    }
  }

  /** Without a usable chain the split succeeds exactly when distinct inputs each spend an output of the same run. */
  lemma {:induction false} SplitSucceedsIff(
    outs: Table<UnprovenOutput>, inputs: seq<Keyed<CoinObject>>, checked: Result<Chain, OfferError>)
    requires Valid(outs) && AllSerialised(inputs)
    ensures Split(outs, inputs, checked).Ok?
            <==> checked.Ok? || (NoRepeats(Keys(inputs)) && forall k :: k in Keys(inputs) ==> k in AsMap(outs))
  {
    if inputs != [] {
      var front, last := inputs[..|inputs| - 1], inputs[|inputs| - 1];
      SplitSucceedsIff(outs, front, checked);
      NoRepeatsSnoc(Keys(front), KeyOf(last));
      assert forall k :: k in Keys(inputs) <==> k in Keys(front) || k == KeyOf(last);
      if Split(outs, front, checked).Ok? {
        SplitMembership(outs, front, checked);
        GetMeaning(Split(outs, front, checked).value.outputs, KeyOf(last));
      }
    }
  }

  // Balance, for any weighing of keys

  function SumOf<V>(t: Table<V>, weight: string -> int): int {
    if t == [] then 0 else weight(t[0].key) + SumOf(t[1..], weight)
  }

  function Total(keys: seq<string>, weight: string -> int): int {
    if keys == [] then 0 else Total(keys[..|keys| - 1], weight) + weight(keys[|keys| - 1])
  }

  /** The part of the total that overwrites an earlier entry; an absorbed key overwrites from its third occurrence on. */
  function Overwritten<T(==)>(keys: seq<T>, absorbed: set<T>, weight: T -> int): int {
    if keys == [] then 0
    else
      var front, last := keys[..|keys| - 1], keys[|keys| - 1];
      Overwritten(front, absorbed, weight)
      + (if multiset(front)[last] >= (if last in absorbed then 2 else 1) then weight(last) else 0)
  }

  lemma {:induction false} SumSet<V>(t: Table<V>, key: string, item: V, weight: string -> int)
    requires Valid(t)
    ensures SumOf(Set(t, key, item), weight) == SumOf(t, weight) + (if key in AsMap(t) then 0 else weight(key))
  {
    if t != [] {
      SumSet(t[1..], key, item, weight);
    }
  }

  lemma {:induction false} SumDelete<V>(t: Table<V>, key: string, weight: string -> int)
    requires Valid(t)
    ensures SumOf(Delete(t, key), weight) == SumOf(t, weight) - (if key in AsMap(t) then weight(key) else 0)
  {
    if t != [] {
      SumDelete(t[1..], key, weight);
    }
  }

  lemma {:induction false} OutputTableSum<V>(outputs: seq<Keyed<V>>, weight: string -> int)
    requires OutputTable(outputs).Ok?
    ensures SumOf(OutputTable(outputs).value, weight)
            == Total(Keys(outputs), weight) - Overwritten(Keys(outputs), {}, weight)
  {
    if outputs != [] {
      var front, last := outputs[..|outputs| - 1], outputs[|outputs| - 1];
      OutputTableSum(front, weight);
      OutputTableMeaning(front);
      var keys, key := Keys(front), KeyOf(last);
      assert (keys + [key])[..|keys|] == keys;
      assert key in keys <==> multiset(keys)[key] >= 1;
      SumSet(OutputTable(front).value, key, last.item, weight);
    }
  }

  /** A step raises the balance by its key's weight, unless the key is an input already. */
  lemma MovesSum(t: Tables, u: Tables, outs: map<string, UnprovenOutput>, keys: seq<string>,
                 input: Keyed<CoinObject>, checked: Result<Chain, OfferError>, weight: string -> int)
    requires Placed(t, outs, keys) && Moves(t, u, input, checked)
    ensures SumOf(u.inputs, weight) - SumOf(u.outputs, weight)
            == SumOf(t.inputs, weight) - SumOf(t.outputs, weight)
               + (if multiset(keys)[KeyOf(input)] >= (if KeyOf(input) in outs then 2 else 1) then 0 else weight(KeyOf(input)))
  {
    var key := KeyOf(input);
    CountSnoc(keys, key);
    if key in AsMap(t.outputs) {
      SumDelete(t.outputs, key, weight);
    } else {
      SumSet(t.inputs, key, NewInput(input.item, checked.value), weight);
    }
  }

  lemma TotalSnoc(keys: seq<string>, key: string, absorbed: set<string>, weight: string -> int)
    ensures Total(keys + [key], weight) == Total(keys, weight) + weight(key)
    ensures Overwritten(keys + [key], absorbed, weight)
            == Overwritten(keys, absorbed, weight)
               + (if multiset(keys)[key] >= (if key in absorbed then 2 else 1) then weight(key) else 0)
  {
    assert (keys + [key])[..|keys|] == keys;
  }

  /** Inputs minus outputs, in any weight, after a split: the input total without what is overwritten, less the outputs. */
  lemma {:induction false} SplitSum(
    outs: Table<UnprovenOutput>, inputs: seq<Keyed<CoinObject>>, checked: Result<Chain, OfferError>, weight: string -> int)
    requires Valid(outs) && Split(outs, inputs, checked).Ok?
    ensures var t := Split(outs, inputs, checked).value;
      SumOf(t.inputs, weight) - SumOf(t.outputs, weight)
      == Total(Keys(inputs), weight) - Overwritten(Keys(inputs), AsMap(outs).Keys, weight) - SumOf(outs, weight)
  {
    if inputs != [] {
      var front, last := inputs[..|inputs| - 1], inputs[|inputs| - 1];
      SplitSum(outs, front, checked, weight);
      SplitMembership(outs, front, checked);
      var t := Split(outs, front, checked).value;
      StepMoves(t, last, checked);
      MovesSum(t, Split(outs, inputs, checked).value, AsMap(outs), Keys(front), last, checked, weight);
      TotalSnoc(Keys(front), KeyOf(last), AsMap(outs).Keys, weight);
      assert Keys(inputs) == Keys(front) + [KeyOf(last)];
    }
  }

  lemma {:induction false} TotalAsSum<T, V>(items: seq<T>, keyed: seq<Keyed<V>>, f: T -> int, weight: string -> int)
    requires |items| == |keyed| && forall i :: 0 <= i < |items| ==> weight(KeyOf(keyed[i])) == f(items[i])
    ensures Total(Keys(keyed), weight) == SumBy(items, f)
  {
    if items != [] {
      var n := |items| - 1;
      TotalAsSum(items[..n], keyed[..n], f, weight);
      TotalSnoc(Keys(keyed[..n]), KeyOf(keyed[n]), {}, weight);
    }
  }

  lemma {:induction false} NothingOverwritten<T>(keys: seq<T>, absorbed: set<T>, weight: T -> int)
    requires NoRepeats(keys)
    ensures Overwritten(keys, absorbed, weight) == 0
  {
    if keys != [] {
      var front, last := keys[..|keys| - 1], keys[|keys| - 1];
      NothingOverwritten(front, absorbed, weight);
      assert last !in front;
    }
  }

  /** Two lists that are equal at the same places. */
  ghost predicate SamePattern<S, T>(xs: seq<S>, ys: seq<T>) {
    |xs| == |ys| && forall i, j :: 0 <= i < |xs| && 0 <= j < |xs| ==> (xs[i] == xs[j] <==> ys[i] == ys[j])
  }

  lemma {:induction false} SameCount<S, T>(xs: seq<S>, ys: seq<T>, x: S, y: T)
    requires |xs| == |ys| && forall i :: 0 <= i < |xs| ==> (xs[i] == x <==> ys[i] == y)
    ensures multiset(xs)[x] == multiset(ys)[y]
  {
    if xs != [] {
      var n := |xs| - 1;
      SameCount(xs[..n], ys[..n], x, y);
      assert xs == xs[..n] + [xs[n]] && ys == ys[..n] + [ys[n]];
    }
  }

  /** What is overwritten depends on which places are equal, absorbed and how heavy, and on nothing else. */
  lemma {:induction false} OverwrittenAlong<S, T>(xs: seq<S>, ys: seq<T>, absorbed: set<S>, absorbed': set<T>, f: S -> int, g: T -> int)
    requires SamePattern(xs, ys)
    requires forall i :: 0 <= i < |xs| ==> f(xs[i]) == g(ys[i]) && (xs[i] in absorbed <==> ys[i] in absorbed')
    ensures Overwritten(xs, absorbed, f) == Overwritten(ys, absorbed', g)
  {
    if xs != [] {
      var n := |xs| - 1;
      OverwrittenAlong(xs[..n], ys[..n], absorbed, absorbed', f, g);
      SameCount(xs[..n], ys[..n], xs[n], ys[n]);
    }
  }
}
