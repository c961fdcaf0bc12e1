/** `OrderedDictionary`: a dictionary whose `values` come in the order in which their keys were
    last assigned. Its storage is an append-only list of optional slots and a map from each key to
    the slot of its latest assignment; reassigning a key empties its previous slot.

    The abstract value is the history of assignments: `Latest` says what a key holds, `Live` what
    `values` lists. */
module OrderedDictionaries {
  import opened Outcomes

  /** The index of the last assignment to `key` in `history`, if there is one. */
  function LastIndex<K(==), V>(history: seq<(K, Option<V>)>, key: K): (r: Option<nat>)
    ensures r.Some? ==> r.value < |history| && history[r.value].0 == key
    ensures r.Some? ==> forall j :: r.value < j < |history| ==> history[j].0 != key
    ensures r.None? ==> forall j :: 0 <= j < |history| ==> history[j].0 != key
  {
    if history == [] then None
    else if history[|history| - 1].0 == key then Some(|history| - 1)
    else LastIndex(history[..|history| - 1], key)
  }

  /** What `key` holds after `history`: the value of its last assignment, or `nil` if it was
      never assigned. */
  function Latest<K(==), V>(history: seq<(K, Option<V>)>, key: K): Option<V> {
    match LastIndex(history, key)
    case None => None
    case Some(i) => history[i].1
  }

  /** The assignment at `i` has not been superseded by a later one to the same key. */
  ghost predicate IsLast<K, V>(history: seq<(K, Option<V>)>, i: nat)
    requires i < |history|
  {
    forall j :: i < j < |history| ==> history[j].0 != history[i].0
  }

  /** What the slot of assignment `i` holds: its value while it is the key's latest, `nil` once the
      key has been reassigned. */
  ghost function Slot<K, V>(history: seq<(K, Option<V>)>, i: nat): Option<V>
    requires i < |history|
  {
    if IsLast(history, i) then history[i].1 else None
  }

  /** The keys whose latest assignment is not `nil`, in the order of those assignments. */
  ghost function LiveKeys<K, V>(history: seq<(K, Option<V>)>): seq<K> {
    if history == [] then []
    else
      (if history[0].1.Some? && IsLast(history, 0) then [history[0].0] else []) + LiveKeys(history[1..])
  }

  /** The non-`nil` values of the keys, in the order in which the keys were last assigned. */
  ghost function Live<K, V>(history: seq<(K, Option<V>)>): seq<V> {
    if history == [] then []
    else
      (if history[0].1.Some? && IsLast(history, 0) then [history[0].1.value] else []) + Live(history[1..])
  }

  /** `flatMap({$0})` over the slots: the non-`nil` ones, in order. */
  function Compact<V>(slots: seq<Option<V>>): seq<V> {
    if slots == [] then []
    else (if slots[0].Some? then [slots[0].value] else []) + Compact(slots[1..])
  }

  lemma IsLastTail<K, V>(history: seq<(K, Option<V>)>, i: nat)
    requires 0 < i < |history|
    ensures IsLast(history, i) <==> IsLast(history[1..], i - 1)
  {
    if IsLast(history[1..], i - 1) {
      forall j | i < j < |history| ensures history[j].0 != history[i].0 {
        assert history[1..][j - 1] == history[j];
      }
    }
  }

  /** The slots that the history prescribes compact to the live values. */
  lemma {:induction false} CompactSlots<K, V>(history: seq<(K, Option<V>)>, slots: seq<Option<V>>)
    requires |slots| == |history|
    requires forall i :: 0 <= i < |slots| ==> slots[i] == Slot(history, i)
    ensures Compact(slots) == Live(history)
  {
    if history != [] {
      forall i | 0 <= i < |slots| - 1 ensures slots[1..][i] == Slot(history[1..], i) {
        IsLastTail(history, i + 1);
      }
      CompactSlots(history[1..], slots[1..]);
    }
  }

  /** The latest assignment to a key is the one just made. */
  lemma LastIndexAppend<K, V>(history: seq<(K, Option<V>)>, key: K, value: Option<V>, other: K)
    ensures LastIndex(history + [(key, value)], other)
         == if other == key then Some(|history|) else LastIndex(history, other)
  {
    assert (history + [(key, value)])[..|history|] == history;
  }

  /** After `d[k] = v`, reading `d[k]` gives `v`. */
  lemma {:induction false} ReadYourWrite<K, V>(history: seq<(K, Option<V>)>, key: K, value: Option<V>)
    ensures Latest(history + [(key, value)], key) == value
  {
    LastIndexAppend(history, key, value, key);
  }

  /** Assigning a key leaves what every other key holds unchanged. */
  lemma {:induction false} OtherKeysUnchanged<K, V>(history: seq<(K, Option<V>)>, key: K, value: Option<V>, other: K)
    requires other != key
    ensures Latest(history + [(key, value)], other) == Latest(history, other)
  {
    LastIndexAppend(history, key, value, other);
  }

  /** A key that was never assigned reads as `nil`. */
  lemma {:induction false} NeverAssigned<K, V>(history: seq<(K, Option<V>)>, key: K)
    requires forall i :: 0 <= i < |history| ==> history[i].0 != key
    ensures Latest(history, key) == None
  {
    if history != [] {
      assert history[|history| - 1].0 != key;
    }
  }

  /** Past its first assignment, a history says the same about every key assigned again later. */
  lemma LatestFront<K, V>(history: seq<(K, Option<V>)>, key: K)
    requires history != [] && LastIndex(history[1..], key).Some?
    ensures LastIndex(history, key) == Some(LastIndex(history[1..], key).value + 1)
    ensures Latest(history, key) == Latest(history[1..], key)
  {
    LastIndexFront(history, key);
    assert history[1..][LastIndex(history[1..], key).value] == history[LastIndex(history, key).value];
  }

  /** `values` lists, for each key listed by `LiveKeys`, the value that key holds. */
  lemma {:induction false} LiveIsLatest<K, V>(history: seq<(K, Option<V>)>)
    ensures |Live(history)| == |LiveKeys(history)|
    ensures forall i :: 0 <= i < |LiveKeys(history)| ==>
              LastIndex(history, LiveKeys(history)[i]).Some? && Latest(history, LiveKeys(history)[i]) == Some(Live(history)[i])
  {
    if history != [] {
      var tail := history[1..];
      LiveIsLatest(tail);
      forall i | 0 <= i < |LiveKeys(tail)| ensures LastIndex(history, LiveKeys(tail)[i]).Some?
        && Latest(history, LiveKeys(tail)[i]) == Some(Live(tail)[i])
      {
        LatestFront(history, LiveKeys(tail)[i]);
      }
      if history[0].1.Some? && IsLast(history, 0) {
        LastIndexUnique(history, history[0].0, LastIndex(history, history[0].0), Some(0));
      }
    }
  }

  /** The keys `values` is listed by are distinct and come in the order of their latest
      assignments. */
  lemma {:induction false} LiveKeysOrdered<K, V>(history: seq<(K, Option<V>)>)
    ensures forall i, j :: 0 <= i < j < |LiveKeys(history)| ==>
              && LiveKeys(history)[i] != LiveKeys(history)[j]
              && LastIndex(history, LiveKeys(history)[i]).Some?
              && LastIndex(history, LiveKeys(history)[j]).Some?
              && LastIndex(history, LiveKeys(history)[i]).value < LastIndex(history, LiveKeys(history)[j]).value
  {
    if history != [] {
      var tail := history[1..];
      LiveKeysOrdered(tail);
      LiveIsLatest(tail);
      forall i | 0 <= i < |LiveKeys(tail)|
        ensures LastIndex(history, LiveKeys(tail)[i]) == Some(LastIndex(tail, LiveKeys(tail)[i]).value + 1)
      {
        LatestFront(history, LiveKeys(tail)[i]);
      }
      if history[0].1.Some? && IsLast(history, 0) {
        var head := history[0].0;
        LastIndexUnique(history, head, LastIndex(history, head), Some(0));
        assert LiveKeys(history) == [head] + LiveKeys(tail);
      }
    }
  }

  /** Every key that holds a value is listed: `values` leaves out exactly the keys that hold
      `nil` or were never assigned. */
  lemma {:induction false} LiveKeysComplete<K, V>(history: seq<(K, Option<V>)>, key: K)
    requires Latest(history, key).Some?
    ensures key in LiveKeys(history)
  {
    var tail := history[1..];
    LastIndexFront(history, key);
    if LastIndex(tail, key).Some? {
      LatestFront(history, key);
      LiveKeysComplete(tail, key);
    } else {
      assert LastIndex(history, key) == Some(0);
      assert IsLast(history, 0);
    }
  }

  /** The last index in `history`, computed on its tail. */
  function ShiftedLastIndex<K(==), V>(history: seq<(K, Option<V>)>, key: K): Option<nat>
    requires history != []
  {
    match LastIndex(history[1..], key)
    case Some(i) => Some(i + 1)
    case None => if history[0].0 == key then Some(0) else None
  }

  lemma LastIndexFront<K, V>(history: seq<(K, Option<V>)>, key: K)
    requires history != []
    ensures LastIndex(history, key) == ShiftedLastIndex(history, key)
  {
    var a := LastIndex(history, key);
    var b := LastIndex(history[1..], key);
    if b.Some? {
      assert history[1..][b.value] == history[b.value + 1];
      forall j | b.value + 1 < j < |history| ensures history[j].0 != key {
        assert history[1..][j - 1] == history[j];
      }
    } else {
      forall j | 0 < j < |history| ensures history[j].0 != key {
        assert history[1..][j - 1] == history[j];
      }
    }
    LastIndexUnique(history, key, a, ShiftedLastIndex(history, key));
  }

  /** `LastIndex` is determined by its contract. */
  lemma LastIndexUnique<K, V>(history: seq<(K, Option<V>)>, key: K, a: Option<nat>, b: Option<nat>)
    requires a == LastIndex(history, key)
    requires b.Some? ==> b.value < |history| && history[b.value].0 == key
    requires b.Some? ==> forall j :: b.value < j < |history| ==> history[j].0 != key
    requires b.None? ==> forall j :: 0 <= j < |history| ==> history[j].0 != key
    ensures a == b
  {
  }

  /** Swift's struct is updated in place through its `subscript` setter; here it is a class
      whose fields that setter reassigns. `assignments` records every assignment made. */
  class OrderedDictionary<K(==, !new), V> {
    var valueStore: seq<Option<V>>
    var lookup: map<K, nat>
    ghost var assignments: seq<(K, Option<V>)>

    /** The slots are exactly those the assignment history prescribes, and `lookup` sends each
        assigned key to the slot of its latest assignment. */
    ghost predicate Valid()
      reads this
    {
      && |valueStore| == |assignments|
      && (forall key :: key in lookup <==> LastIndex(assignments, key).Some?)
      && (forall key :: key in lookup ==> LastIndex(assignments, key) == Some(lookup[key]))
      && (forall i :: 0 <= i < |valueStore| ==> valueStore[i] == Slot(assignments, i))
    }

    /** An empty dictionary. */
    constructor ()
      ensures Valid() && assignments == []
    {
      valueStore := [];
      lookup := map[];
      assignments := [];
    }

    /** The storage invariant the setter keeps: every index is a slot, no two keys share a slot,
        and each filled slot is the slot of exactly one key. */
    lemma Representation()
      requires Valid()
      ensures forall key :: key in lookup ==> lookup[key] < |valueStore|
      ensures forall k1, k2 :: k1 in lookup && k2 in lookup && lookup[k1] == lookup[k2] ==> k1 == k2
      ensures forall i :: 0 <= i < |valueStore| && valueStore[i].Some? ==>
                exists key :: key in lookup && lookup[key] == i
    {
      forall i | 0 <= i < |valueStore| && valueStore[i].Some?
        ensures exists key :: key in lookup && lookup[key] == i
      {
        var key := assignments[i].0;
        assert IsLast(assignments, i);
        LastIndexUnique(assignments, key, LastIndex(assignments, key), Some(i));
        assert key in lookup;
      }
    }

    /** The subscript getter: the value of the key's latest assignment, `nil` if none. */
    function Get(key: K): (r: Option<V>)
      reads this
      requires Valid()
      ensures r == Latest(assignments, key)
    {
      if key in lookup then valueStore[lookup[key]] else None
    }

    /** The subscript setter: empties the key's previous slot, appends a slot for the new value
        and points the key at it. */
    method Set(key: K, newValue: Option<V>)
      requires Valid()
      modifies this
      ensures Valid()
      ensures assignments == old(assignments) + [(key, newValue)]
      ensures valueStore == (if key in old(lookup) then old(valueStore)[old(lookup)[key] := None] else old(valueStore))
                            + [newValue]
      ensures lookup == old(lookup)[key := |old(valueStore)|]
    {
      ghost var before := assignments;
      if key in lookup {
        var existingIndex := lookup[key];
        valueStore := valueStore[existingIndex := None];
      }
      valueStore := valueStore + [newValue];
      lookup := lookup[key := |valueStore| - 1];
      assignments := assignments + [(key, newValue)];
      forall other ensures LastIndex(assignments, other) == if other == key then Some(|before|) else LastIndex(before, other) {
        LastIndexAppend(before, key, newValue, other);
      }
      forall i | 0 <= i < |valueStore| ensures valueStore[i] == Slot(assignments, i) {
        if i < |before| {
          var k := before[i].0;
          if k == key {
            assert !IsLast(assignments, i);
            if IsLast(before, i) {
              LastIndexUnique(before, key, LastIndex(before, key), Some(i));
            }
          } else {
            assert forall j :: 0 <= j < |before| ==> assignments[j] == before[j];
            assert IsLast(assignments, i) <==> IsLast(before, i);
          }
        }
      }
    }

    /** `values`: the non-`nil` slots in order, which are the live values of the keys in the
        order of their latest assignments. */
    function Values(): (r: seq<V>)
      reads this
      requires Valid()
      ensures r == Live(assignments)
    {
      CompactSlots(assignments, valueStore);
      Compact(valueStore)
    }
  }
}
