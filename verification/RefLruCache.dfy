/** The reference-counted LRU cache: strong entries in recency order under a byte budget, and slots
    that keep only a weak reference, through which a value still alive elsewhere is found again. */
module RefLruCaches {
  import opened Options

  /** Keys and values by identity; a value is the address of a reference-counted object. */
  type Key = nat
  type Value = nat

  // ---------------------------------------------------------------- the recency list

  /** A strong entry; the list runs from least to most recently used. */
  datatype Entry = Entry(key: Key, value: Value, footprint: nat)

  function Sum(list: seq<Entry>): nat {
    if list == [] then 0 else list[0].footprint + Sum(list[1..])
  }

  lemma {:induction false} SumSplit(a: seq<Entry>, b: seq<Entry>)
    ensures Sum(a + b) == Sum(a) + Sum(b)
  {
    if a == [] {
      assert a + b == b;
    } else {
      assert (a + b)[1..] == a[1..] + b;
      SumSplit(a[1..], b);
    }
  }

  function RemoveAt<T>(s: seq<T>, i: nat): seq<T>
    requires i < |s|
  {
    s[..i] + s[i + 1..]
  }

  lemma SumRemoveAt(list: seq<Entry>, i: nat)
    requires i < |list|
    ensures Sum(RemoveAt(list, i)) + list[i].footprint == Sum(list)
  {
    assert list == list[..i] + list[i..];
    SumSplit(list[..i], list[i..]);
    SumSplit(list[..i], list[i + 1..]);
  }

  lemma SumSnoc(list: seq<Entry>, e: Entry)
    ensures Sum(list + [e]) == Sum(list) + e.footprint
  {
    SumSplit(list, [e]);
    assert Sum([e]) == e.footprint + Sum([]);
  }

  ghost predicate DistinctKeys(list: seq<Entry>) {
    forall i, j :: 0 <= i < j < |list| ==> list[i].key != list[j].key
  }

  function IndexOf(list: seq<Entry>, key: Key): (i: nat)
    ensures i <= |list| && (i < |list| ==> list[i].key == key)
    ensures forall j :: 0 <= j < i ==> list[j].key != key
  {
    if list == [] || list[0].key == key then 0 else IndexOf(list[1..], key) + 1
  }

  function Without(list: seq<Entry>, key: Key): seq<Entry> {
    var i := IndexOf(list, key);
    if i < |list| then RemoveAt(list, i) else list
  }

  /** A hit makes the entry the most recent. */
  function Touch(list: seq<Entry>, key: Key): seq<Entry> {
    var i := IndexOf(list, key);
    if i < |list| then RemoveAt(list, i) + [list[i]] else list
  }

  /** How many of the oldest entries must go for `reserved` more bytes to fit, if they ever do. */
  function Surplus(list: seq<Entry>, reserved: nat, budget: nat): (k: nat)
    ensures k <= |list|
  {
    if list == [] || Sum(list) + reserved <= budget then 0 else Surplus(list[1..], reserved, budget) + 1
  }

  /** The surplus is the shortest prefix whose removal makes room. */
  lemma {:induction false} SurplusIsLeast(list: seq<Entry>, reserved: nat, budget: nat)
    ensures var k := Surplus(list, reserved, budget);
      && (k < |list| ==> Sum(list[k..]) + reserved <= budget)
      && forall j :: 0 <= j < k ==> Sum(list[j..]) + reserved > budget
  {
    if list != [] && Sum(list) + reserved > budget {
      SurplusIsLeast(list[1..], reserved, budget);
      var k := Surplus(list, reserved, budget);
      forall j | 0 <= j < k
        ensures Sum(list[j..]) + reserved > budget
      {
        if j == 0 {
          assert list[0..] == list;
        } else {
          assert list[j..] == list[1..][j - 1..];
        }
      }
      assert list[k..] == list[1..][k - 1..];
    } else {
      assert list[0..] == list;
    }
  }

  datatype Operation = Get(key: Key) | Insert(key: Key, value: Value, footprint: nat) | Clear

  /** What each operation does to the list. */
  function Apply(list: seq<Entry>, budget: nat, op: Operation): seq<Entry> {
    match op
    case Get(key) => Touch(list, key)
    case Insert(key, value, footprint) =>
      var others := Without(list, key);
      others[Surplus(others, footprint, budget)..] + [Entry(key, value, footprint)]
    case Clear => []
  }

  // ---------------------------------------------------------------- what every run keeps

  /** No key twice, and over budget only by a single entry. */
  ghost predicate WithinBudget(list: seq<Entry>, budget: nat) {
    DistinctKeys(list) && (Sum(list) <= budget || |list| == 1)
  }

  lemma WithoutIsDistinct(list: seq<Entry>, key: Key)
    requires DistinctKeys(list)
    ensures DistinctKeys(Without(list, key))
    ensures forall j :: 0 <= j < |Without(list, key)| ==> Without(list, key)[j].key != key
  {
  }

  lemma TouchKeeps(list: seq<Entry>, key: Key)
    requires DistinctKeys(list)
    ensures DistinctKeys(Touch(list, key)) && Sum(Touch(list, key)) == Sum(list) && |Touch(list, key)| == |list|
  {
    var i := IndexOf(list, key);
    if i < |list| {
      SumRemoveAt(list, i);
      SumSnoc(RemoveAt(list, i), list[i]);
      MovedIsDistinct(list, i);
    }
  }

  lemma MovedIsDistinct(list: seq<Entry>, i: nat)
    requires DistinctKeys(list) && i < |list|
    ensures DistinctKeys(RemoveAt(list, i) + [list[i]])
  {
    var moved := RemoveAt(list, i) + [list[i]];
    assert forall j :: 0 <= j < |moved| ==> moved[j] == list[if j < i then j else if j == |list| - 1 then i else j + 1];
  }

  lemma InsertKeeps(list: seq<Entry>, budget: nat, key: Key, value: Value, footprint: nat)
    requires DistinctKeys(list)
    ensures WithinBudget(Apply(list, budget, Insert(key, value, footprint)), budget)
  {
    var others := Without(list, key);
    WithoutIsDistinct(list, key);
    SurplusIsLeast(others, footprint, budget);
    SumSnoc(others[Surplus(others, footprint, budget)..], Entry(key, value, footprint));
  }

  lemma ApplyKeeps(list: seq<Entry>, budget: nat, op: Operation)
    requires WithinBudget(list, budget)
    ensures WithinBudget(Apply(list, budget, op), budget)
  {
    match op {
      case Clear =>
      case Get(key) => TouchKeeps(list, key);
      case Insert(key, value, footprint) => InsertKeeps(list, budget, key, value, footprint);
    }
  }

  function Run(ops: seq<Operation>, budget: nat): seq<Entry> {
    if ops == [] then [] else Apply(Run(ops[..|ops| - 1], budget), budget, ops[|ops| - 1])
  }

  lemma {:induction false} RunStaysWithinBudget(ops: seq<Operation>, budget: nat)
    ensures WithinBudget(Run(ops, budget), budget)
  {
    if ops != [] {
      RunStaysWithinBudget(ops[..|ops| - 1], budget);
      ApplyKeeps(Run(ops[..|ops| - 1], budget), budget, ops[|ops| - 1]);
    }
  }

  // ---------------------------------------------------------------- recency

  /** The entries under other keys, in order. */
  function Others(list: seq<Entry>, key: Key): seq<Entry> {
    if list == [] then [] else (if list[0].key == key then [] else [list[0]]) + Others(list[1..], key)
  }

  predicate Holds(list: seq<Entry>, key: Key) {
    exists i :: 0 <= i < |list| && list[i].key == key
  }

  /** The entry under this key is now the last; nothing else has moved or changed. */
  ghost predicate MadeNewest(list: seq<Entry>, list': seq<Entry>, key: Key) {
    && list' != [] && list'[|list'| - 1].key == key && list'[|list'| - 1] in list
    && Others(list', key) == Others(list, key)
  }

  lemma {:induction false} OthersOfBoth(a: seq<Entry>, b: seq<Entry>, key: Key)
    ensures Others(a + b, key) == Others(a, key) + Others(b, key)
  {
    if a == [] {
      assert a + b == b;
    } else {
      assert (a + b)[1..] == a[1..] + b;
      OthersOfBoth(a[1..], b, key);
    }
  }

  lemma OthersOfOne(e: Entry, key: Key)
    ensures Others([e], key) == if e.key == key then [] else [e]
  {
    assert Others([e][1..], key) == [];
  }

  lemma {:induction false} OthersStay(list: seq<Entry>, i: nat, key: Key)
    requires i < |list| && list[i].key == key
    ensures Others(RemoveAt(list, i), key) == Others(list, key)
  {
    if i == 0 {
      assert RemoveAt(list, 0) == list[1..];
    } else {
      assert RemoveAt(list, i)[1..] == RemoveAt(list[1..], i - 1);
      OthersStay(list[1..], i - 1, key);
    }
  }

  lemma OthersPlus(list: seq<Entry>, e: Entry)
    ensures Others(list + [e], e.key) == Others(list, e.key)
  {
    OthersOfBoth(list, [e], e.key);
    OthersOfOne(e, e.key);
  }

  lemma OthersAround(list: seq<Entry>, i: nat)
    requires i < |list|
    ensures Others(list, list[i].key) == Others(RemoveAt(list, i), list[i].key)
    ensures Others(RemoveAt(list, i) + [list[i]], list[i].key) == Others(list, list[i].key)
  {
    OthersStay(list, i, list[i].key);
    OthersPlus(RemoveAt(list, i), list[i]);
  }

  lemma {:induction false} AllAreOthers(list: seq<Entry>, key: Key)
    requires !Holds(list, key)
    ensures Others(list, key) == list
  {
    if list != [] {
      assert list[0].key != key;
      assert !Holds(list[1..], key) by {
        assert forall j :: 0 <= j < |list[1..]| ==> list[1..][j] == list[j + 1];
      }
      AllAreOthers(list[1..], key);
    }
  }

  /** What is left without a key are the others. */
  lemma WithoutIsOthers(list: seq<Entry>, key: Key)
    requires DistinctKeys(list)
    ensures Without(list, key) == Others(list, key)
  {
    var i := IndexOf(list, key);
    if i < |list| {
      OthersAround(list, i);
    }
    WithoutIsDistinct(list, key);
    AllAreOthers(Without(list, key), key);
  }

  /** A hit makes the entry the newest; a miss moves nothing. */
  lemma GetMakesNewest(list: seq<Entry>, budget: nat, key: Key)
    ensures var list' := Apply(list, budget, Get(key));
      if Holds(list, key) then MadeNewest(list, list', key) else list' == list
  {
    var i := IndexOf(list, key);
    if i < |list| {
      OthersAround(list, i);
    }
  }

  /** An operation uses a key when it inserts it, or gets it and hits. */
  predicate Uses(list: seq<Entry>, op: Operation, key: Key) {
    (op.Insert? && op.key == key) || (op.Get? && op.key == key && Holds(list, key))
  }

  /** When a key was last used: the number of that operation, 0 if there was none. */
  function LastUse(ops: seq<Operation>, budget: nat, key: Key): (n: nat)
    ensures n <= |ops|
  {
    if ops == [] then 0
    else if Uses(Run(ops[..|ops| - 1], budget), ops[|ops| - 1], key) then |ops|
    else LastUse(ops[..|ops| - 1], budget, key)
  }

  /** What the last Insert under a key stored, unless everything has been cleared since. */
  function LastInserted(ops: seq<Operation>, key: Key): Option<Entry> {
    if ops == [] then None
    else
      match ops[|ops| - 1]
      case Clear => None
      case Insert(k, value, footprint) =>
        if k == key then Some(Entry(key, value, footprint)) else LastInserted(ops[..|ops| - 1], key)
      case Get(_) => LastInserted(ops[..|ops| - 1], key)
  }

  /** list' is entries of list, in the same order, and then, if newest, one of key. */
  ghost predicate Follows(list: seq<Entry>, list': seq<Entry>, key: Key, newest: bool) {
    && (newest ==> list' != [] && list'[|list'| - 1].key == key)
    && forall j :: 0 <= j < OldPart(list', newest) ==> Kept(list, list', j) && (newest ==> list'[j].key != key)
  }

  function OldPart(list: seq<Entry>, newest: bool): int {
    if newest then |list| - 1 else |list|
  }

  ghost predicate Kept(list: seq<Entry>, list': seq<Entry>, j: nat)
    requires j < |list'|
  {
    && list'[j] in list
    && forall i :: 0 <= i < j ==> Before(list, list'[i], list'[j])
  }

  ghost predicate Before(list: seq<Entry>, a: Entry, b: Entry) {
    exists i, j :: 0 <= i < j < |list| && list[i] == a && list[j] == b
  }

  lemma RemovalFollows(list: seq<Entry>, i: nat, drop: nat, e: Entry, list': seq<Entry>)
    requires DistinctKeys(list) && i < |list| && drop <= |list| - 1 && e.key == list[i].key
    requires list' == RemoveAt(list, i)[drop..] + [e]
    ensures Follows(list, list', e.key, true)
  {
    forall j | 0 <= j < |list'| - 1
      ensures Kept(list, list', j) && list'[j].key != e.key
    {
      var at := if j + drop < i then j + drop else j + drop + 1;
      assert list'[j] == list[at];
      forall x | 0 <= x < j
        ensures Before(list, list'[x], list'[j])
      {
        var from := if x + drop < i then x + drop else x + drop + 1;
        assert list'[x] == list[from];
      }
    }
  }

  lemma SuffixFollows(list: seq<Entry>, drop: nat, e: Entry, list': seq<Entry>)
    requires drop <= |list| && list' == list[drop..] + [e] && forall j :: 0 <= j < |list| ==> list[j].key != e.key
    ensures Follows(list, list', e.key, true)
  {
    forall j | 0 <= j < |list'| - 1
      ensures Kept(list, list', j) && list'[j].key != e.key
    {
      assert list'[j] == list[j + drop];
      forall x | 0 <= x < j
        ensures Before(list, list'[x], list'[j])
      {
        assert list'[x] == list[x + drop];
      }
    }
  }

  lemma SameFollows(list: seq<Entry>, key: Key)
    ensures Follows(list, list, key, false)
  {
    forall j | 0 <= j < |list|
      ensures Kept(list, list, j)
    {
    }
  }

  /** An operation puts the key it uses last and keeps the order of the rest. */
  lemma ApplyFollows(list: seq<Entry>, budget: nat, op: Operation)
    requires DistinctKeys(list) && !op.Clear?
    ensures Follows(list, Apply(list, budget, op), op.key, Uses(list, op, op.key))
  {
    var i := IndexOf(list, op.key);
    match op {
      case Get(key) =>
        if i < |list| {
          assert RemoveAt(list, i)[0..] == RemoveAt(list, i);
          RemovalFollows(list, i, 0, list[i], Touch(list, key));
        } else {
          SameFollows(list, key);
        }
      case Insert(key, value, footprint) =>
        var e := Entry(key, value, footprint);
        var drop := Surplus(Without(list, key), footprint, budget);
        if i < |list| {
          RemovalFollows(list, i, drop, e, Apply(list, budget, op));
        } else {
          SuffixFollows(list, drop, e, Apply(list, budget, op));
        }
    }
  }

  ghost predicate SortedBy(list: seq<Entry>, use: Key -> nat) {
    forall i, j :: 0 <= i < j < |list| ==> use(list[i].key) < use(list[j].key)
  }

  /** Least recently used first, over every run: the list is sorted by when its keys were last used. */
  lemma {:induction false} ListIsByLastUse(ops: seq<Operation>, budget: nat)
    ensures SortedBy(Run(ops, budget), k => LastUse(ops, budget, k))
  {
    if ops != [] {
      var before, op := ops[..|ops| - 1], ops[|ops| - 1];
      var list := Run(before, budget);
      ListIsByLastUse(before, budget);
      RunStaysWithinBudget(before, budget);
      if !op.Clear? {
        ApplyFollows(list, budget, op);
        UseOrderStep(list, Apply(list, budget, op), op.key, Uses(list, op, op.key),
                     k => LastUse(before, budget, k), k => LastUse(ops, budget, k), |ops|);
      }
    }
  }

  lemma UseOrderStep(list: seq<Entry>, list': seq<Entry>, key: Key, newest: bool, use: Key -> nat, use': Key -> nat, now: nat)
    requires Follows(list, list', key, newest) && SortedBy(list, use)
    requires forall k: Key :: use(k) < now && use'(k) == if newest && k == key then now else use(k)
    ensures SortedBy(list', use')
  {
    forall i, j | 0 <= i < j < |list'|
      ensures use'(list'[i].key) < use'(list'[j].key)
    {
      assert Kept(list, list', i);
      if j < OldPart(list', newest) {
        assert Kept(list, list', j);
        assert Before(list, list'[i], list'[j]);
      }
    }
  }

  /** Of two listed entries the earlier one is the one used longer ago. */
  lemma RecencyOrder(ops: seq<Operation>, budget: nat, i: nat, j: nat)
    requires i < |Run(ops, budget)| && j < |Run(ops, budget)|
    ensures i < j <==> LastUse(ops, budget, Run(ops, budget)[i].key) < LastUse(ops, budget, Run(ops, budget)[j].key)
  {
    ListIsByLastUse(ops, budget);
    assert i < j || i == j || j < i;
  }

  /** And a listed entry is what the last Insert under its key stored. */
  lemma {:induction false} ListedWasInserted(ops: seq<Operation>, budget: nat)
    ensures forall e :: e in Run(ops, budget) ==> LastInserted(ops, e.key) == Some(e)
  {
    if ops != [] {
      var before, op := ops[..|ops| - 1], ops[|ops| - 1];
      var list, list' := Run(before, budget), Run(ops, budget);
      ListedWasInserted(before, budget);
      RunStaysWithinBudget(before, budget);
      if !op.Clear? {
        ApplyFollows(list, budget, op);
        GetMakesNewest(list, budget, op.key);
        forall e | e in list'
          ensures LastInserted(ops, e.key) == Some(e)
        {
          InsertedStep(list, list', op, budget, e);
        }
      }
    }
  }

  /** An entry of the new list is an old one, or the one just inserted. */
  lemma InsertedStep(list: seq<Entry>, list': seq<Entry>, op: Operation, budget: nat, e: Entry)
    requires DistinctKeys(list) && !op.Clear? && list' == Apply(list, budget, op) && e in list'
    ensures if op.Insert? && e.key == op.key then e == Entry(op.key, op.value, op.footprint) else e in list
  {
    ApplyFollows(list, budget, op);
    GetMakesNewest(list, budget, op.key);
    var j :| 0 <= j < |list'| && list'[j] == e;
    var n := OldPart(list', Uses(list, op, op.key));
    if j < n {
      assert Kept(list, list', j);
    }
  }

  /** Insert drops a prefix, oldest first, and no more of it than it must: had it stopped one entry
      earlier the new one would not have fitted. What it keeps, it keeps in order. */
  lemma EvictionIsOldestFirst(list: seq<Entry>, budget: nat, key: Key, value: Value, footprint: nat)
    requires DistinctKeys(list)
    ensures var others, result := Others(list, key), Apply(list, budget, Insert(key, value, footprint));
      var evicted := |others| + 1 - |result|;
      && 0 <= evicted <= |others|
      && result == others[evicted..] + [Entry(key, value, footprint)]
      && (evicted < |others| ==> Sum(result) <= budget)
      && forall fewer :: 0 <= fewer < evicted ==> Sum(others[fewer..]) + footprint > budget
  {
    WithoutIsOthers(list, key);
    var others := Others(list, key);
    var k := Surplus(others, footprint, budget);
    SurplusIsLeast(others, footprint, budget);
    var e := Entry(key, value, footprint);
    var result := Apply(list, budget, Insert(key, value, footprint));
    SumSnoc(others[k..], e);
    assert result == others[k..] + [e];
    assert k < |others| ==> Sum(result) <= budget;
  }

  // ---------------------------------------------------------------- the slots

  datatype Slot = Slot(strong: Option<Value>, weak: Option<Value>, footprint: nat)

  predicate IsStrong(slots: map<Key, Slot>, key: Key) {
    key in slots && slots[key].strong.Some?
  }

  function EntryOf(slots: map<Key, Slot>, key: Key): Entry {
    if IsStrong(slots, key) then Entry(key, slots[key].strong.value, slots[key].footprint) else Entry(key, 0, 0)
  }

  function Listed(slots: map<Key, Slot>, order: seq<Key>): seq<Entry> {
    seq(|order|, i requires 0 <= i < |order| => EntryOf(slots, order[i]))
  }

  /** The order lists exactly the keys with a strong reference, once each, and every strong
      reference has its weak one. */
  ghost predicate Matched(slots: map<Key, Slot>, order: seq<Key>) {
    && (forall i, j :: 0 <= i < j < |order| ==> order[i] != order[j])
    && (forall i :: 0 <= i < |order| ==> IsStrong(slots, order[i]))
    && (forall k: Key {:trigger IsStrong(slots, k)} :: IsStrong(slots, k) ==> k in order && slots[k].weak == slots[k].strong)
  }

  /** Where a slot's list iterator points. */
  function Position(order: seq<Key>, key: Key): (i: nat)
    requires key in order
    ensures i < |order| && order[i] == key
  {
    if order[0] == key then 0 else Position(order[1..], key) + 1
  }

  lemma PositionIsIndex(slots: map<Key, Slot>, order: seq<Key>, key: Key)
    requires Matched(slots, order) && key in order
    ensures IndexOf(Listed(slots, order), key) == Position(order, key)
  {
    assert Listed(slots, order)[Position(order, key)].key == key;
  }

  lemma ListedIsStrong(slots: map<Key, Slot>, order: seq<Key>, key: Key)
    requires Matched(slots, order)
    ensures IndexOf(Listed(slots, order), key) < |order| ==> IsStrong(slots, key)
  {
    var i := IndexOf(Listed(slots, order), key);
    if i < |order| {
      assert Listed(slots, order)[i] == EntryOf(slots, order[i]);
    }
  }

  lemma RemovedOrder(order: seq<Key>, i: nat)
    requires i < |order| && forall j, k :: 0 <= j < k < |order| ==> order[j] != order[k]
    ensures var order' := RemoveAt(order, i);
      && (forall j, k :: 0 <= j < k < |order'| ==> order'[j] != order'[k])
      && forall x :: x in order' <==> x in order && x != order[i]
  {
    var order' := RemoveAt(order, i);
    assert forall j :: 0 <= j < |order'| ==> order'[j] == order[if j < i then j else j + 1];
    forall x | x in order && x != order[i]
      ensures x in order'
    {
      var j :| 0 <= j < |order| && order[j] == x;
      assert order'[if j < i then j else j - 1] == x;
    }
  }

  /** Taking the strong reference at position i out of slot and order. */
  lemma Released(slots: map<Key, Slot>, order: seq<Key>, i: nat)
    requires Matched(slots, order) && i < |order|
    ensures var slots', order' := slots[order[i] := slots[order[i]].(strong := None)], RemoveAt(order, i);
      && Matched(slots', order')
      && Listed(slots', order') == RemoveAt(Listed(slots, order), i)
      && Sum(Listed(slots', order')) == Sum(Listed(slots, order)) - slots[order[i]].footprint
  {
    var key := order[i];
    var slots', order' := slots[key := slots[key].(strong := None)], RemoveAt(order, i);
    SumRemoveAt(Listed(slots, order), i);
    RemovedOrder(order, i);
    MatchedAfterRelease(slots, order, slots', order', key);
    assert Listed(slots', order') == RemoveAt(Listed(slots, order), i);
  }

  lemma MatchedAfterRelease(slots: map<Key, Slot>, order: seq<Key>, slots': map<Key, Slot>, order': seq<Key>, key: Key)
    requires Matched(slots, order) && key in slots && slots' == slots[key := slots[key].(strong := None)]
    requires forall j, k :: 0 <= j < k < |order'| ==> order'[j] != order'[k]
    requires forall x :: x in order' <==> x in order && x != key
    ensures Matched(slots', order')
  {
    forall k: Key | IsStrong(slots', k)
      ensures k in order' && slots'[k].weak == slots'[k].strong
    {
      assert IsStrong(slots, k);
    }
    forall j | 0 <= j < |order'|
      ensures IsStrong(slots', order'[j])
    {
      assert order'[j] in order';
      StrongIfListed(slots, order, order'[j]);
    }
  }

  lemma StrongIfListed(slots: map<Key, Slot>, order: seq<Key>, key: Key)
    requires Matched(slots, order) && key in order
    ensures IsStrong(slots, key)
  {
    assert IsStrong(slots, order[Position(order, key)]);
  }

  lemma Stored(slots: map<Key, Slot>, order: seq<Key>, key: Key, value: Value, footprint: nat)
    requires Matched(slots, order) && !IsStrong(slots, key)
    ensures var slots', order' := slots[key := Slot(Some(value), Some(value), footprint)], order + [key];
      && Matched(slots', order')
      && Listed(slots', order') == Listed(slots, order) + [Entry(key, value, footprint)]
      && Sum(Listed(slots', order')) == Sum(Listed(slots, order)) + footprint
  {
    var slots', order' := slots[key := Slot(Some(value), Some(value), footprint)], order + [key];
    forall k: Key | IsStrong(slots', k)
      ensures k in order' && slots'[k].weak == slots'[k].strong
    {
      assert k != key ==> IsStrong(slots, k);
    }
    assert forall j :: 0 <= j < |order| ==> order[j] != key;
    assert Listed(slots', order') == Listed(slots, order) + [Entry(key, value, footprint)];
    SumSnoc(Listed(slots, order), Entry(key, value, footprint));
  }

  lemma MovedOrder(order: seq<Key>, i: nat)
    requires i < |order| && forall j, k :: 0 <= j < k < |order| ==> order[j] != order[k]
    ensures var order' := RemoveAt(order, i) + [order[i]];
      && |order'| == |order|
      && (forall j, k :: 0 <= j < k < |order'| ==> order'[j] != order'[k])
      && forall x :: x in order' <==> x in order
  {
    var order' := RemoveAt(order, i) + [order[i]];
    assert forall j :: 0 <= j < |order'| ==> order'[j] == order[if j < i then j else if j == |order| - 1 then i else j + 1];
    forall x | x in order
      ensures x in order'
    {
      var j :| 0 <= j < |order| && order[j] == x;
      assert order'[if j < i then j else if j == i then |order| - 1 else j - 1] == x;
    }
  }

  lemma Moved(slots: map<Key, Slot>, order: seq<Key>, i: nat)
    requires Matched(slots, order) && i < |order|
    ensures var order' := RemoveAt(order, i) + [order[i]];
      && Matched(slots, order')
      && Listed(slots, order') == RemoveAt(Listed(slots, order), i) + [Listed(slots, order)[i]]
      && Sum(Listed(slots, order')) == Sum(Listed(slots, order))
  {
    var order' := RemoveAt(order, i) + [order[i]];
    SumRemoveAt(Listed(slots, order), i);
    SumSnoc(RemoveAt(Listed(slots, order), i), Listed(slots, order)[i]);
    MovedOrder(order, i);
    MatchedAfterMove(slots, order, order');
    assert Listed(slots, order') == RemoveAt(Listed(slots, order), i) + [Listed(slots, order)[i]];
  }

  lemma MatchedAfterMove(slots: map<Key, Slot>, order: seq<Key>, order': seq<Key>)
    requires Matched(slots, order)
    requires forall j, k :: 0 <= j < k < |order'| ==> order'[j] != order'[k]
    requires forall x :: x in order' <==> x in order
    ensures Matched(slots, order')
  {
    forall j | 0 <= j < |order'|
      ensures IsStrong(slots, order'[j])
    {
      assert order'[j] in order';
      StrongIfListed(slots, order, order'[j]);
    }
  }

  /** Slots without a strong reference can change freely. */
  lemma WeakSlotsDoNotMatter(slots: map<Key, Slot>, slots': map<Key, Slot>, order: seq<Key>)
    requires Matched(slots, order)
    requires forall k: Key :: IsStrong(slots, k) <==> IsStrong(slots', k)
    requires forall k: Key :: IsStrong(slots, k) && IsStrong(slots', k) ==> slots'[k] == slots[k]
    ensures Matched(slots', order) && Listed(slots', order) == Listed(slots, order)
  {
    assert Listed(slots', order) == Listed(slots, order);
  }

  // ---------------------------------------------------------------- the code

  class RefLruCache {
    const budget: nat
    var bytesInUse: nat
    var order: seq<Key>
    var slots: map<Key, Slot>

    ghost function List(): seq<Entry>
      reads this
    {
      Listed(slots, order)
    }

    ghost predicate Valid()
      reads this
    {
      Matched(slots, order) && bytesInUse == Sum(List())
    }

    constructor (budget: nat)
      ensures Valid() && this.budget == budget && List() == [] && slots == map[]
    {
      this.budget := budget;
      bytesInUse, order, slots := 0, [], map[];
    }

    /** `alive` holds the values somebody outside still refers to: what WeakRef.Lock can promote. */
    method Get(key: Key, alive: set<Value>) returns (result: Option<Value>)
      requires Valid()
      modifies this
      ensures Valid() && List() == Apply(old(List()), budget, Operation.Get(key))
      ensures if key in old(slots) && old(slots)[key].strong.Some? then MadeNewest(old(List()), List(), key) else List() == old(List())
      ensures key !in old(slots) ==> result == None && slots == old(slots)
      ensures key in old(slots) ==>
        var slot := old(slots)[key];
        if slot.strong.Some? then result == slot.strong && slots == old(slots)
        else if slot.weak.Some? && slot.weak.value in alive then result == slot.weak && slots == old(slots)
        else result == None && slots == old(slots) - {key}
    {
      if key in slots && slots[key].strong.Some? {
        assert IsStrong(slots, key);
        PositionIsIndex(slots, order, key);
        OthersAround(List(), Position(order, key));
        ToBack(Position(order, key));
        return slots[key].strong;
      }
      ListedIsStrong(slots, order, key);
      if key !in slots {
        return None;
      }
      var live := slots[key].weak;
      if live.None? || live.value !in alive {
        WeakSlotsDoNotMatter(slots, slots - {key}, order);
        slots := slots - {key};
        return None;
      }
      return live;
    }

    method ToBack(i: nat)
      requires Valid() && i < |order|
      modifies this`order
      ensures Valid() && List() == RemoveAt(old(List()), i) + [old(List())[i]]
    {
      Moved(slots, order, i);
      order := RemoveAt(order, i) + [order[i]];
    }

    method Insert(key: Key, value: Option<Value>, footprint: nat)
      requires Valid()
      modifies this
      ensures Valid()
      ensures value.None? ==> List() == old(List()) && slots == old(slots)
      ensures value.Some? ==>
        && List() == Apply(old(List()), budget, Operation.Insert(key, value.value, footprint))
        && key in slots && slots[key] == Slot(value, value, footprint)
        && WeakKept(old(slots), slots, key)
    {
      if value.None? {
        return;
      }
      Vacate(key);
      EvictUntilFits(footprint);
      Stored(slots, order, key, value.value, footprint);
      slots := slots[key := Slot(value, value, footprint)];
      order := order + [key];
      bytesInUse := bytesInUse + footprint;
    }

    /** Takes any strong reference under this key out of the list. */
    method Vacate(key: Key)
      requires Valid()
      modifies this
      ensures Valid() && key in slots && slots[key].strong.None?
      ensures List() == Without(old(List()), key) && WeakKept(old(slots), slots, key)
    {
      if key !in slots {
        ListedIsStrong(slots, order, key);
        WeakSlotsDoNotMatter(slots, slots[key := Slot(None, None, 0)], order);
        slots := slots[key := Slot(None, None, 0)];
      } else if slots[key].strong.Some? {
        assert IsStrong(slots, key);
        PositionIsIndex(slots, order, key);
        Release(Position(order, key));
      } else {
        ListedIsStrong(slots, order, key);
      }
    }

    method Release(i: nat)
      requires Valid() && i < |order|
      modifies this
      ensures Valid() && List() == RemoveAt(old(List()), i)
      ensures slots.Keys == old(slots).Keys && old(order)[i] in slots
      ensures slots == old(slots)[old(order)[i] := slots[old(order)[i]]]
      ensures slots[old(order)[i]] == old(slots)[old(order)[i]].(strong := None)
    {
      Released(slots, order, i);
      var key := order[i];
      SumRemoveAt(List(), i);
      bytesInUse := bytesInUse - slots[key].footprint;
      order := RemoveAt(order, i);
      slots := slots[key := slots[key].(strong := None)];
    }

    method EvictUntilFits(reserved: nat)
      requires Valid()
      modifies this
      ensures Valid() && List() == old(List())[Surplus(old(List()), reserved, budget)..]
      ensures slots.Keys == old(slots).Keys
      ensures forall k :: k in slots ==> slots[k].weak == old(slots)[k].weak
      ensures forall k :: k in slots && old(slots)[k].strong.None? ==> slots[k] == old(slots)[k]
      decreases |order|
    {
      ghost var all := List();
      ghost var gone: nat := 0;
      while order != [] && bytesInUse + reserved > budget
        invariant Valid() && gone <= |all| && List() == all[gone..]
        invariant Surplus(all, reserved, budget) == gone + Surplus(all[gone..], reserved, budget)
        invariant slots.Keys == old(slots).Keys
        invariant forall k :: k in slots ==> slots[k].weak == old(slots)[k].weak
        invariant forall k :: k in slots && old(slots)[k].strong.None? ==> slots[k] == old(slots)[k]
        decreases |order|
      {
        assert all[gone..][1..] == all[gone + 1..] == RemoveAt(all[gone..], 0);
        Release(0);
        gone := gone + 1;
      }
    }

    /** Drops every strong reference and keeps the weak ones. */
    method Clear()
      requires Valid()
      modifies this
      ensures Valid() && List() == Apply(old(List()), budget, Operation.Clear) && bytesInUse == 0
      ensures slots.Keys == old(slots).Keys
      ensures forall k :: k in slots ==> slots[k] == old(slots)[k].(strong := None)
    {
      slots := map k | k in slots :: slots[k].(strong := None);
      order := [];
      bytesInUse := 0;
    }
  }

  /** Every other slot is still there with its weak reference, and none is new. */
  ghost predicate WeakKept(slots: map<Key, Slot>, slots': map<Key, Slot>, key: Key) {
    forall k: Key :: k != key ==> (k in slots' <==> k in slots) && (k in slots' ==> slots'[k].weak == slots[k].weak)
  }
}
