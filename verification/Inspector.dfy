/**
 The request store of internal/client/inspector/store.go: a bounded list of exchanges, newest first,
 shifted in place once it is full.
 */
module Inspector {
  import opened Options

  /** An exchange and the id the store gives it. */
  datatype Exchange<+T> = Exchange(id: int, data: T)

  datatype Op<T> = Add(data: T) | Clear

  /** The list and the next id, as the methods change them. */
  datatype Store<T> = Store(list: seq<Exchange<T>>, nextID: nat)

  function Apply<T>(s: Store<T>, op: Op<T>, maxSize: nat): Store<T>
    requires 0 < maxSize
  {
    match op
    case Add(data) =>
      var all := [Exchange(s.nextID, data)] + s.list;
      Store(if |all| <= maxSize then all else all[..|all| - 1], s.nextID + 1)
    case Clear => Store([], s.nextID)
  }

  class InMemoryStore<T(0)> {
    var exchanges: array<Exchange<T>>   // the backing array
    var len: nat                        // the slice is its first len elements
    var nextID: nat
    const maxSize: nat

    ghost predicate Valid()
      reads this
    {
      0 < maxSize && len <= exchanges.Length && len <= maxSize
    }

    ghost function Value(): Store<T>
      reads this, exchanges
      requires Valid()
    {
      Store(exchanges[..len], nextID)
    }

    constructor (maxSize: int)
      ensures Valid() && Value() == Store([], 0) && fresh(exchanges)
      ensures this.maxSize == if maxSize <= 0 then 100 else maxSize
    {
      var size := if maxSize <= 0 then 100 else maxSize;
      this.maxSize := size;
      exchanges := new Exchange<T>[0];
      len := 0;
      nextID := 0;
    }

    /** Moves the first n - 1 elements up by one, from the back, as `copy` does for overlapping slices. */
    method ShiftUp(n: nat)
      requires 0 < n <= exchanges.Length
      modifies exchanges
      ensures forall j :: 1 <= j < n ==> exchanges[j] == old(exchanges[j - 1])
    {
      var i := n - 1;
      while i > 0
        invariant 0 <= i <= n - 1
        invariant forall j :: 0 <= j <= i ==> exchanges[j] == old(exchanges[j])
        invariant forall j :: i < j < n ==> exchanges[j] == old(exchanges[j - 1])
      {
        exchanges[i] := exchanges[i - 1];
        i := i - 1;
      }
    }

    /** A new backing array of full capacity with `first` in front of the elements of the slice. */
    method Prepended(first: Exchange<T>) returns (newExchanges: array<Exchange<T>>)
      requires Valid() && len < maxSize
      ensures fresh(newExchanges) && newExchanges.Length == maxSize
      ensures newExchanges[..len + 1] == [first] + exchanges[..len]
    {
      newExchanges := new Exchange<T>[maxSize](_ => first);
      for i := 0 to len
        modifies newExchanges
        invariant newExchanges[0] == first
        invariant forall j :: 0 <= j < i ==> newExchanges[j + 1] == exchanges[j]
      {
        newExchanges[i + 1] := exchanges[i];
      }
    }

    method Add(data: T) returns (id: nat)
      requires Valid()
      modifies this`exchanges, this`len, this`nextID, exchanges
      ensures Valid() && (exchanges == old(exchanges) || fresh(exchanges))
      ensures id == old(nextID) && Value() == Apply(old(Value()), Op.Add(data), maxSize)
    {
      ghost var before := exchanges[..len];
      id := nextID;
      nextID := nextID + 1;
      var exchange := Exchange(id, data);
      if len >= maxSize {
        ShiftUp(len);
        exchanges[0] := exchange;
        assert exchanges[..len] == ([exchange] + before)[..len];
      } else {
        exchanges := Prepended(exchange);
        len := len + 1;
      }
    }

    method Get(id: int) returns (found: Option<Exchange<T>>)
      requires Valid()
      ensures found.Some? ==> found.value in Value().list && found.value.id == id
      ensures found.None? ==> forall ex :: ex in Value().list ==> ex.id != id
    {
      for i := 0 to len
        invariant forall j :: 0 <= j < i ==> exchanges[j].id != id
      {
        if exchanges[i].id == id {
          assert exchanges[i] in exchanges[..len];
          return Some(exchanges[i]);
        }
      }
      found := None;
    }

    method List() returns (all: seq<Exchange<T>>)
      requires Valid()
      ensures all == Value().list
    {
      all := exchanges[..len];
    }

    /** Empties the list; ids go on where they were. */
    method Clear()
      requires Valid()
      modifies this`len
      ensures Valid() && Value() == Apply(old(Value()), Op.Clear, maxSize)
    {
      len := 0;
    }

    method Count() returns (n: nat)
      requires Valid()
      ensures n == |Value().list|
    {
      n := len;
    }
  }

  // ---- runs ----

  function After<T>(ops: seq<Op<T>>, maxSize: nat): Store<T>
    requires 0 < maxSize
  {
    if ops == [] then Store([], 0) else Apply(After(ops[..|ops| - 1], maxSize), ops[|ops| - 1], maxSize)
  }

  /** What was added since the last clear, oldest first. */
  function Added<T>(ops: seq<Op<T>>): seq<T> {
    if ops == [] then []
    else match ops[|ops| - 1]
      case Add(data) => Added(ops[..|ops| - 1]) + [data]
      case Clear => []
  }

  /** How many exchanges were ever added. */
  function Adds<T>(ops: seq<Op<T>>): nat {
    if ops == [] then 0 else Adds(ops[..|ops| - 1]) + if ops[|ops| - 1].Add? then 1 else 0
  }

  function Min(a: nat, b: nat): nat { if a < b then a else b }

  /**
   The store refines its history: after any operations it holds the last maxSize exchanges added since the
   last clear, newest first, with consecutive descending ids that end just below `nextID`.
   */
  lemma {:induction false} HoldsLatest<T>(ops: seq<Op<T>>, maxSize: nat)
    requires 0 < maxSize
    ensures var s := After(ops, maxSize); var added := Added(ops);
            && s.nextID == Adds(ops) && |added| <= Adds(ops)
            && |s.list| == Min(|added|, maxSize)
            && forall i :: 0 <= i < |s.list| ==> s.list[i] == Exchange(s.nextID - 1 - i, added[|added| - 1 - i])
  {
    if ops != [] {
      HoldsLatest(ops[..|ops| - 1], maxSize);
    }
  }

  /** The exchange with this id in a list, if any. */
  ghost predicate InList<T>(list: seq<Exchange<T>>, ex: Exchange<T>) { ex in list }

  /**
   Lookup by id succeeds exactly for the ids nextID - Count <= id < nextID, and there is one exchange to
   find: the one that was given that id, counting all exchanges ever added.
   */
  lemma LookupRange<T>(ops: seq<Op<T>>, maxSize: nat, id: int)
    requires 0 < maxSize
    ensures var s := After(ops, maxSize); var added := Added(ops);
            && ((exists ex :: InList(s.list, ex) && ex.id == id) <==> s.nextID - |s.list| <= id < s.nextID)
            && (forall ex :: InList(s.list, ex) && ex.id == id ==>
                  var k := id - (s.nextID - |added|);
                  0 <= k < |added| && ex.data == added[k])
  {
    HoldsLatest(ops, maxSize);
    var s := After(ops, maxSize);
    if s.nextID - |s.list| <= id < s.nextID {
      var ex := s.list[s.nextID - 1 - id];
      assert InList(s.list, ex) && ex.id == id;
    }
  }

  /** Ids are never reused: the store's later lists hold none of the ids of a list that was cleared. */
  lemma IdsNeverReused<T>(ops: seq<Op<T>>, more: seq<Op<T>>, maxSize: nat, id: int)
    requires 0 < maxSize && id < After(ops, maxSize).nextID
    ensures forall ex :: ex in After(ops + [Clear] + more, maxSize).list ==> ex.id != id
  {
    ClearedCounts(ops, more);
    HoldsLatest(ops, maxSize);
    HoldsLatest(ops + [Clear] + more, maxSize);
  }

  lemma {:induction false} ClearedCounts<T>(ops: seq<Op<T>>, more: seq<Op<T>>)
    ensures Adds(ops + [Clear] + more) - |Added(ops + [Clear] + more)| >= Adds(ops)
  {
    var all := ops + [Clear] + more;
    if more == [] {
      assert all[..|all| - 1] == ops;
    } else {
      var front := all[..|all| - 1];
      ClearedCounts(ops, more[..|more| - 1]);
      assert front == ops + [Clear] + more[..|more| - 1];
      AddsGrow(ops, [Clear] + more[..|more| - 1]);
      assert ops + ([Clear] + more[..|more| - 1]) == front;
    }
  }

  lemma {:induction false} AddsGrow<T>(ops: seq<Op<T>>, more: seq<Op<T>>)
    ensures Adds(ops) <= Adds(ops + more)
  {
    if more == [] {
      assert ops + more == ops;
    } else {
      AddsGrow(ops, more[..|more| - 1]);
      assert (ops + more)[..|ops + more| - 1] == ops + more[..|more| - 1];
    }
  }
}
