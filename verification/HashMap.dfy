/** The open-addressing hash map: an eight-slot probe window, doubling on a full
    window or a full table, and mutual recursion between resizing and putting. */
module HashMap {
  import opened Words

  const INITIAL_CAPACITY: nat := 128
  const MAX_PROBES: nat := 8

  datatype Slot<K, V> = Free | Used(key: K, value: V)

  datatype Storing = Done | NoMemory

  /** The `i`-th slot a key is looked for in. */
  function Probe(hash: nat, i: nat, capacity: nat): (slot: nat)
    requires capacity > 0
    ensures slot < capacity
  {
    (hash + i) % capacity
  }

  lemma ProbeNext(hash: nat, i: nat, capacity: nat)
    requires capacity > 0
    ensures (Probe(hash, i, capacity) + 1) % capacity == Probe(hash, i + 1, capacity)
  {
    var x := hash + i;
    var q, r := x / capacity, x % capacity;
    assert x == q * capacity + r;
    if r + 1 < capacity {
      ModOf(q, capacity, r + 1);
      ModOf(0, capacity, r + 1);
    } else {
      assert x + 1 == (q + 1) * capacity + 0;
      ModOf(q + 1, capacity, 0);
      ModOf(1, capacity, 0);
    }
  }

  /** The slots of one window are different slots. */
  lemma ProbeDistinct(hash: nat, i: nat, j: nat, capacity: nat)
    requires i < j < i + capacity
    ensures Probe(hash, i, capacity) != Probe(hash, j, capacity)
  {
    var x, y := hash + i, hash + j;
    if x % capacity == y % capacity {
      var p, q := x / capacity, y / capacity;
      assert x == p * capacity + x % capacity && y == q * capacity + y % capacity;
      Difference(q, p, capacity, j - i);
    }
  }

  lemma Difference(q: int, p: int, n: nat, d: nat)
    requires 0 < d < n
    ensures q * n - p * n != d
  {
    assert (q - p) * n == q * n - p * n;
    if q > p { AtLeast(q - p, n); } else { AtMost(q - p, n); }
  }

  lemma AtMost(a: int, b: nat)
    requires a <= 0
    ensures a * b <= 0
  {
  }

  /** The first `n` slots of a window are used by other keys. */
  ghost predicate Others<K, V>(s: seq<Slot<K, V>>, hash: nat, key: K, n: nat)
    requires |s| > 0
  {
    forall i :: 0 <= i < n ==> s[Probe(hash, i, |s|)].Used? && s[Probe(hash, i, |s|)].key != key
  }

  /** The window of a key contains only other keys: it is full for it. */
  ghost predicate WindowFull<K, V>(s: seq<Slot<K, V>>, hash: nat, key: K)
    requires |s| > 0
  {
    Others(s, hash, key, MAX_PROBES)
  }

  /** The first slot of the window that is free or holds the key is the `d`-th. */
  ghost predicate FirstFit<K, V>(s: seq<Slot<K, V>>, hash: nat, key: K, d: nat)
    requires |s| > 0
  {
    && d < MAX_PROBES
    && Others(s, hash, key, d)
    && (s[Probe(hash, d, |s|)].Free? || s[Probe(hash, d, |s|)].key == key)
  }

  /** Slots as a representation of `contents`: `dist` says how far from its home
      slot a key lies. Keys occupy one slot each, inside their window, with no
      free slot before them. */
  ghost predicate Represents<K, V>(s: seq<Slot<K, V>>, hash: K -> nat, contents: map<K, V>, dist: map<K, nat>) {
    && |s| >= MAX_PROBES && dist.Keys == contents.Keys
    && (forall k :: k in contents ==>
          && dist[k] < MAX_PROBES
          && s[Probe(hash(k), dist[k], |s|)] == Used(k, contents[k])
          && forall i :: 0 <= i < dist[k] ==> s[Probe(hash(k), i, |s|)].Used?)
    && (forall j :: 0 <= j < |s| && s[j].Used? ==>
          s[j].key in contents && Probe(hash(s[j].key), dist[s[j].key], |s|) == j)
  }

  /** A key that is present is found: the slots before it belong to others. */
  lemma PresentFits<K, V>(s: seq<Slot<K, V>>, hash: K -> nat, contents: map<K, V>, dist: map<K, nat>, key: K)
    requires Represents(s, hash, contents, dist) && key in contents
    ensures FirstFit(s, hash(key), key, dist[key])
  {
    forall i | 0 <= i < dist[key]
      ensures s[Probe(hash(key), i, |s|)].Used? && s[Probe(hash(key), i, |s|)].key != key
    {
      ProbeDistinct(hash(key), i, dist[key], |s|);
    }
  }

  lemma FitUnique<K, V>(s: seq<Slot<K, V>>, hash: nat, key: K, d1: nat, d2: nat)
    requires |s| > 0 && FirstFit(s, hash, key, d1) && FirstFit(s, hash, key, d2)
    ensures d1 == d2
  {
  }

  /** Storing at the first fit puts the key. */
  lemma StoreFits<K, V>(s: seq<Slot<K, V>>, hash: K -> nat, contents: map<K, V>, dist: map<K, nat>, key: K, value: V,
                        d: nat)
    requires Represents(s, hash, contents, dist) && FirstFit(s, hash(key), key, d)
    ensures Represents(s[Probe(hash(key), d, |s|) := Used(key, value)], hash, contents[key := value], dist[key := d])
  {
    var j := Probe(hash(key), d, |s|);
    if key in contents {
      PresentFits(s, hash, contents, dist, key);
      FitUnique(s, hash(key), key, d, dist[key]);
    }
    var s' := s[j := Used(key, value)];
    forall k | k in contents[key := value]
      ensures s'[Probe(hash(k), dist[key := d][k], |s'|)] == Used(k, contents[key := value][k])
    {
      if k != key {
        assert s[Probe(hash(k), dist[k], |s|)] == Used(k, contents[k]);
      }
    }
  }

  /** An empty table. */
  lemma EmptyRepresents<K, V>(s: seq<Slot<K, V>>, hash: K -> nat)
    requires |s| >= MAX_PROBES && forall i :: 0 <= i < |s| ==> s[i].Free?
    ensures Represents(s, hash, map[], map[])
  {
  }

  lemma {:induction false} SubsetSize<K>(a: set<K>, b: set<K>)
    requires a <= b
    ensures |a| <= |b|
    decreases a
  {
    if a != {} {
      var x :| x in a;
      SubsetSize(a - {x}, b - {x});
    }
  }

  ghost function KeysUpTo<K, V>(s: seq<Slot<K, V>>, n: nat): set<K>
    requires n <= |s| && forall j :: 0 <= j < n ==> s[j].Used?
  {
    if n == 0 then {} else KeysUpTo(s, n - 1) + {s[n - 1].key}
  }

  /** Used slots have different keys. */
  lemma {:induction false} AllUsed<K, V>(s: seq<Slot<K, V>>, hash: K -> nat, contents: map<K, V>, dist: map<K, nat>,
                                         n: nat)
    requires Represents(s, hash, contents, dist) && n <= |s| && forall j :: 0 <= j < n ==> s[j].Used?
    ensures |KeysUpTo(s, n)| == n
    ensures forall k :: k in KeysUpTo(s, n) ==> k in contents && Probe(hash(k), dist[k], |s|) < n
    decreases n
  {
    if n > 0 {
      AllUsed(s, hash, contents, dist, n - 1);
      assert s[n - 1].key in contents && Probe(hash(s[n - 1].key), dist[s[n - 1].key], |s|) == n - 1;
    }
  }

  /** The entries of the first `n` slots have been moved. */
  ghost predicate Moved<K, V>(contents: map<K, V>, before: map<K, V>, was: seq<Slot<K, V>>, hash: K -> nat,
                              dist: map<K, nat>, n: nat)
  {
    && |was| > 0 && dist.Keys == before.Keys
    && (forall k :: k in contents ==> k in before && contents[k] == before[k])
    && (forall k :: k in before ==> (k in contents <==> Probe(hash(k), dist[k], |was|) < n))
  }

  lemma MovedNone<K, V>(before: map<K, V>, was: seq<Slot<K, V>>, hash: K -> nat, dist: map<K, nat>)
    requires |was| > 0 && dist.Keys == before.Keys
    ensures Moved(map[], before, was, hash, dist, 0)
  {
  }

  lemma MovedSize<K, V>(contents: map<K, V>, before: map<K, V>, was: seq<Slot<K, V>>, hash: K -> nat, dist: map<K, nat>,
                        n: nat)
    requires |was| > 0 && dist.Keys == before.Keys && Moved(contents, before, was, hash, dist, n)
    ensures |contents| <= |before|
    ensures n >= |was| ==> contents == before
  {
    SubsetSize(contents.Keys, before.Keys);
  }

  lemma MovedNext<K, V>(contents: map<K, V>, before: map<K, V>, was: seq<Slot<K, V>>, hash: K -> nat, dist: map<K, nat>,
                        n: nat)
    requires Represents(was, hash, before, dist) && n < |was| && Moved(contents, before, was, hash, dist, n)
    ensures was[n].Free? ==> Moved(contents, before, was, hash, dist, n + 1)
    ensures was[n].Used? ==> was[n].key !in contents
    ensures was[n].Used? ==> Moved(contents[was[n].key := was[n].value], before, was, hash, dist, n + 1)
  {
    forall k | k in before && Probe(hash(k), dist[k], |was|) == n
      ensures was[n] == Used(k, before[k])
    {
    }
  }

  lemma NewKey<K, V>(contents: map<K, V>, key: K, value: V)
    requires key !in contents
    ensures |contents[key := value]| == |contents| + 1
  {
    assert contents[key := value].Keys == contents.Keys + {key};
  }

  /** A capacity after `n` doublings. */
  function Doubled(capacity: nat, n: nat): nat
    decreases n
  {
    if n == 0 then capacity else Doubled(2 * capacity, n - 1)
  }

  lemma {:induction false} DoubledTwice(capacity: nat, a: nat, b: nat)
    ensures Doubled(Doubled(capacity, a), b) == Doubled(capacity, a + b)
    decreases a
  {
    if a > 0 { DoubledTwice(2 * capacity, a - 1, b); }
  }

  class HashMap<K(==), V> {
    const hash: K -> nat
    /** Allocations of more slots than this fail. */
    const limit: nat

    var capacity: nat
    var size: nat
    var data: array<Slot<K, V>>

    ghost var contents: map<K, V>
    ghost var dist: map<K, nat>
    /** How often an index was refused because of the load factor, and because eight
        other keys were in the way. */
    ghost var overloads: nat
    ghost var crowds: nat

    ghost predicate Valid()
      reads this`capacity, this`size, this`data, this`contents, this`dist, data
    {
      && capacity == data.Length >= MAX_PROBES && Represents(data[..], hash, contents, dist)
      && |contents| <= size && 10 * size <= 7 * capacity + 10
    }

    /** The load check, 0.7 * capacity < size. */
    predicate Overloaded()
      reads this`capacity, this`size
    {
      7 * capacity < 10 * size
    }

    constructor (hash: K -> nat, limit: nat)
      ensures Valid() && fresh(data) && contents == map[] && size == 0
      ensures this.hash == hash && this.limit == limit && capacity == 128
    {
      this.hash, this.limit := hash, limit;
      capacity, size := INITIAL_CAPACITY, 0;
      data := new Slot<K, V>[INITIAL_CAPACITY](_ => Free);
      contents, dist, overloads, crowds := map[], map[], 0, 0;
      new;
      EmptyRepresents(data[..], hash);
    }

    /** The slot for a key: the first of its window that is free or has the key;
        `None` when the table is overloaded or the window belongs to others. */
    method Index(key: K) returns (index: Option<nat>, ghost d: nat)
      requires Valid()
      modifies this`overloads, this`crowds
      ensures overloads == old(overloads) + if Overloaded() then 1 else 0
      ensures crowds == old(crowds) + if index.None? && !Overloaded() then 1 else 0
      ensures index.None? <==> Overloaded() || WindowFull(data[..], hash(key), key)
      ensures index.Some? ==> FirstFit(data[..], hash(key), key, d) && index.value == Probe(hash(key), d, capacity)
    {
      assert 0 < capacity == data.Length;
      hide Represents;
      d := 0;
      if Overloaded() {
        overloads := overloads + 1;
        return None, 0;
      }
      ghost var s := data[..];
      var slot := hash(key) % capacity;
      for i := 0 to MAX_PROBES
        invariant overloads == old(overloads) && crowds == old(crowds)
        invariant slot == Probe(hash(key), i, capacity) && Others(s, hash(key), key, i)
      {
        assert s[slot] == data[slot];
        if data[slot].Free? || data[slot].key == key {
          return Some(slot), i;
        }
        ProbeNext(hash(key), i, capacity);
        slot := (slot + 1) % capacity;
      }
      crowds := crowds + 1;
      return None, 0;
    }

    /** The `i`-th slot from the home of a key is used by another key. */
    ghost predicate InTheWay(key: K, i: nat)
      requires capacity == data.Length > 0
      reads this`capacity, this`data, data
    {
      var j := (hash(key) + i) % capacity;
      data[j].Used? && data[j].key != key
    }

    /** The two reasons for which no slot is offered, in numbers. */
    lemma Refusals(key: K)
      requires Valid()
      ensures Overloaded() <==> 10 * size > 7 * capacity
      ensures WindowFull(data[..], hash(key), key) <==> forall i :: 0 <= i < 8 ==> InTheWay(key, i)
    {
      hide Represents;
      forall i | 0 <= i < 8
        ensures var j := Probe(hash(key), i, |data[..]|);
                InTheWay(key, i) <==> data[..][j].Used? && data[..][j].key != key
      {
        assert Probe(hash(key), i, |data[..]|) == (hash(key) + i) % capacity;
      }
    }

    method Get(key: K) returns (value: Option<V>)
      requires Valid()
      ensures value == if key in contents then Some(contents[key]) else None
    {
      var slot := hash(key) % capacity;
      for i := 0 to MAX_PROBES
        invariant slot == Probe(hash(key), i, capacity)
        invariant key in contents ==> dist[key] >= i
      {
        if data[slot].Used? && data[slot].key == key {
          assert data[..][slot].key in contents;
          return Some(data[slot].value);
        }
        ProbeNext(hash(key), i, capacity);
        slot := (slot + 1) % capacity;
      }
      return None;
    }

    /** Distinct keys never outnumber `size`, which counts every put, `size` is at
        most one beyond the load factor, and so a free slot always exists. */
    lemma Accounting() returns (free: nat)
      requires Valid()
      ensures |contents| <= size && 10 * size <= 7 * capacity + 10
      ensures free < data.Length && data[free].Free?
    {
      if j :| 0 <= j < data.Length && data[j].Free? {
        free := j;
      } else {
        forall j | 0 <= j < |data[..]| ensures data[..][j].Used? {}
        AllUsed(data[..], hash, contents, dist, data.Length);
        SubsetSize(KeysUpTo(data[..], data.Length), contents.Keys);
        assert false;
      }
    }

    /** Doublings that are left before an allocation fails. */
    ghost function Reserve(): nat
      reads this`capacity
    {
      if capacity <= limit then limit - capacity else 0
    }

    ghost function Refused(): nat
      reads this`overloads, this`crowds
    {
      overloads + crowds
    }

    /** A slot is offered to the key. */
    ghost predicate Offers(key: K)
      requires Valid()
      reads this`capacity, this`size, this`data, this`contents, this`dist, data
    {
      !Overloaded() && !WindowFull(data[..], hash(key), key)
    }

    /** The table has been doubled once for each of `refusals`, except that the last
        doubling failed, if there was no memory for it. */
    ghost predicate Grown(from: nat, refusals: int, status: Storing)
      reads this`capacity
    {
      match status
      case Done => refusals >= 0 && capacity == Doubled(from, refusals)
      case NoMemory => refusals >= 1 && capacity == Doubled(from, refusals - 1) && 2 * capacity > limit
    }

    /** Puts a key. When no slot is offered the table is doubled until one is; it fails
        only where an allocation does, and doubles no more often than a slot is refused.
        Every put counts in `size`, also one that overwrites. */
    method Put(key: K, value: V) returns (status: Storing)
      requires Valid()
      modifies this, data
      ensures Valid() && (data == old(data) || fresh(data)) && capacity >= old(capacity)
      ensures status.Done? ==> contents == old(contents)[key := value]
      ensures status.Done? ==> size == 1 + if capacity == old(capacity) then old(size) else |old(contents)|
      ensures status.NoMemory? && capacity == old(capacity) ==> contents == old(contents)
      ensures overloads == old(overloads) + if old(Overloaded()) then 1 else 0
      ensures old(Offers(key)) ==> status.Done? && capacity == old(capacity)
      ensures !old(Offers(key)) ==>
                if 2 * old(capacity) > limit then status.NoMemory? else capacity >= 2 * old(capacity)
      ensures status.NoMemory? ==> 2 * capacity > limit
      ensures Grown(old(capacity), Refused() - old(Refused()), status)
      decreases Reserve(), 2
    {
      hide Represents, FirstFit, WindowFull, Grown, Doubled;
      ghost var from, refused := capacity, Refused();
      var index, d := Index(key);
      status := Done;
      NotGrown(Done);
      while index.None?
        invariant Valid() && (data == old(data) || fresh(data)) && capacity >= old(capacity)
        invariant contents == old(contents) && Looked(index, d, key)
        invariant size == if capacity == old(capacity) then old(size) else |contents|
        invariant overloads == old(overloads) + if old(Overloaded()) then 1 else 0
        invariant capacity == old(capacity) || Reserve() < old(Reserve())
        invariant old(Offers(key)) ==> index.Some? && capacity == old(capacity)
        invariant !old(Offers(key)) ==> if capacity == old(capacity) then index.None? else capacity >= 2 * old(capacity)
        invariant capacity == old(capacity) || 2 * old(capacity) <= limit
        invariant Grown(from, Refused() - refused - if index.None? then 1 else 0, Done)
        decreases Reserve()
      {
        ghost var smaller, until := capacity, Refused() - refused - 1;
        GrownMeans(from, until);
        status, index, d := Enlarge(key);
        GrownOn(from, until, smaller,
                Refused() - refused - until - if status.Done? && index.None? then 1 else 0, status);
        if status.NoMemory? {
          GrownFails(from, Refused() - refused);
          return;
        }
      }
      Store(index.value, key, value, d);
      status := Done;
    }

    /** What was found for a key. */
    ghost predicate Looked(index: Option<nat>, d: nat, key: K)
      requires Valid()
      reads this`capacity, this`size, this`data, this`contents, this`dist, data
    {
      index.Some? ==>
        !Overloaded() && FirstFit(data[..], hash(key), key, d) && index.value == Probe(hash(key), d, capacity)
    }

    /** One more resize, and another look for a slot. */
    method Enlarge(key: K) returns (status: Storing, index: Option<nat>, ghost d: nat)
      requires Valid()
      modifies this, data
      ensures Valid() && (data == old(data) || fresh(data)) && overloads == old(overloads)
      ensures if 2 * old(capacity) > limit then status.NoMemory? && capacity == old(capacity)
              else capacity >= 2 * old(capacity)
      ensures status.NoMemory? && capacity == old(capacity) ==> contents == old(contents)
      ensures status.Done? ==> contents == old(contents) && size == |contents| && Reserve() < old(Reserve())
      ensures status.Done? ==> Looked(index, d, key)
      ensures Grown(old(capacity),
                    Refused() - old(Refused()) + 1 - if status.Done? && index.None? then 1 else 0, status)
      decreases Reserve(), 1
    {
      hide Represents, FirstFit, WindowFull, Grown;
      index, d := None, 0;
      status := Resize();
      if status.Done? {
        ghost var refused := Refused();
        index, d := Index(key);
      }
    }

    lemma GrownMeans(from: nat, refusals: int)
      requires Grown(from, refusals, Done)
      ensures refusals >= 0 && capacity == Doubled(from, refusals)
    {
    }

    lemma GrownFails(from: nat, refusals: int)
      requires Grown(from, refusals, NoMemory)
      ensures 2 * capacity > limit
    {
    }

    /** Doublings in turn. */
    lemma GrownOn(from: nat, a: int, before: nat, b: int, status: Storing)
      requires a >= 0 && before == Doubled(from, a) && Grown(before, b, status)
      ensures Grown(from, a + b, status)
    {
      DoubledTwice(from, a, if status.Done? then b else b - 1);
    }

    method Store(index: nat, key: K, value: V, ghost d: nat)
      requires Valid() && !Overloaded()
      requires FirstFit(data[..], hash(key), key, d) && index == Probe(hash(key), d, capacity)
      modifies this`size, this`contents, this`dist, data
      ensures Valid() && contents == old(contents)[key := value] && size == old(size) + 1
    {
      StoreFits(data[..], hash, contents, dist, key, value, d);
      hide Represents, FirstFit;
      data[index] := Used(key, value);
      contents, dist := contents[key := value], dist[key := d];
      size := size + 1;
    }

    /** An empty table of the new capacity in place of the old one. */
    method Renew(newCapacity: nat)
      requires newCapacity >= MAX_PROBES
      modifies this
      ensures Valid() && fresh(data) && contents == map[] && size == 0
      ensures capacity == newCapacity && overloads == old(overloads) && crowds == old(crowds)
    {
      capacity, size := newCapacity, 0;
      data := new Slot<K, V>[newCapacity](_ => Free);
      contents, dist := map[], map[];
      EmptyRepresents(data[..], hash);
    }

    /** Doubles the table and puts every entry again. Nested doublings come from
        full windows only: the load check never refuses an index here. */
    method Resize() returns (status: Storing)
      requires Valid()
      modifies this, data
      ensures Valid() && (data == old(data) || fresh(data)) && capacity >= old(capacity)
      ensures status.Done? ==> contents == old(contents) && size == |contents| && !Overloaded()
      ensures status.Done? ==> Reserve() < old(Reserve()) && 2 * old(capacity) <= capacity
      ensures status.NoMemory? && capacity == old(capacity) ==> contents == old(contents)
      ensures overloads == old(overloads)
      ensures if 2 * old(capacity) > limit then status.NoMemory? && capacity == old(capacity) && data == old(data)
              else capacity >= 2 * old(capacity)
      ensures status.NoMemory? ==> 2 * capacity > limit
      ensures Grown(old(capacity), Refused() - old(Refused()) + 1, status)
      decreases Reserve(), 0
    {
      hide Valid, Grown, Doubled, Refused, Represents, Moved, Moving, Source, Overloaded, Probe;
      if capacity * 2 > limit {
        NotGrown(NoMemory);
        return NoMemory;
      }
      Facts();
      var oldCapacity, oldData := capacity, data;
      ghost var before, was, far := contents, data[..], dist;
      Renew(oldCapacity * 2);
      StartMoving(oldData, before, was, far);
      ghost var larger, refused := capacity, Refused();
      status := Rehash(oldCapacity, oldData, before, was, far);
      GrownFirst(oldCapacity, larger, Refused() - refused, status);
      if status.NoMemory? { GrownFails(oldCapacity, Refused() - refused + 1); }
    }

    lemma NotGrown(status: Storing)
      requires status.NoMemory? ==> 2 * capacity > limit
      ensures Grown(capacity, if status.Done? then 0 else 1, status)
    {
    }

    lemma GrownFirst(from: nat, larger: nat, refusals: int, status: Storing)
      requires larger == 2 * from && Grown(larger, refusals, status)
      ensures Grown(from, refusals + 1, status)
    {
    }

    lemma Facts()
      requires Valid()
      ensures Represents(data[..], hash, contents, dist) && capacity == |data[..]| >= MAX_PROBES
      ensures 10 * |contents| <= 7 * capacity + 10
    {
    }

    /** The table that is being doubled, as it was. */
    ghost predicate Source(oldData: array<Slot<K, V>>, before: map<K, V>, was: seq<Slot<K, V>>, far: map<K, nat>)
      reads oldData
    {
      && oldData[..] == was && Represents(was, hash, before, far) && 10 * |before| <= 7 * |was| + 10
    }

    /** During a resize: the entries of the first `n` old slots are in the new
        table, which is at least twice as large. */
    ghost predicate Moving(oldData: array<Slot<K, V>>, before: map<K, V>, was: seq<Slot<K, V>>, far: map<K, nat>,
                           n: nat)
      reads this`capacity, this`size, this`data, this`contents, this`dist, data, oldData
    {
      && Valid() && data != oldData && Source(oldData, before, was, far)
      && size == |contents| && Moved(contents, before, was, hash, far, n) && capacity >= 2 * |was|
    }

    lemma StartMoving(oldData: array<Slot<K, V>>, before: map<K, V>, was: seq<Slot<K, V>>, far: map<K, nat>)
      requires Valid() && data != oldData && oldData[..] == was && Represents(was, hash, before, far)
      requires contents == map[] && size == 0 && capacity >= 2 * |was| && 10 * |before| <= 7 * |was| + 10
      ensures Moving(oldData, before, was, far, 0)
    {
      MovedNone(before, was, hash, far);
    }

    lemma DoneMoving(oldData: array<Slot<K, V>>, before: map<K, V>, was: seq<Slot<K, V>>, far: map<K, nat>)
      requires Moving(oldData, before, was, far, |was|)
      ensures Valid() && contents == before && size == |contents| && !Overloaded() && capacity >= 2 * |was|
    {
      MovedSize(contents, before, was, hash, far, |was|);
    }

    method Rehash(oldCapacity: nat, oldData: array<Slot<K, V>>,
                  ghost before: map<K, V>, ghost was: seq<Slot<K, V>>, ghost far: map<K, nat>)
      returns (status: Storing)
      requires Moving(oldData, before, was, far, 0) && oldCapacity == oldData.Length
      modifies this, data
      ensures Valid() && (data == old(data) || fresh(data)) && capacity >= old(capacity)
      ensures status.Done? ==> contents == before && size == |contents| && !Overloaded()
      ensures overloads == old(overloads)
      ensures Grown(old(capacity), Refused() - old(Refused()), status)
      decreases Reserve(), 4
    {
      hide Valid, Represents, Moved;
      ghost var from, refused := capacity, Refused();
      status := Done;
      for i := 0 to oldCapacity
        invariant Moving(oldData, before, was, far, i) && (data == old(data) || fresh(data))
        invariant capacity >= old(capacity) && overloads == old(overloads)
        invariant status.Done? && Grown(from, Refused() - refused, status)
      {
        ghost var until, smaller := Refused(), capacity;
        status := MoveEntry(oldData, i, before, was, far);
        GrownOn(from, until - refused, smaller, Refused() - until, status);
        if status.NoMemory? {
          return;
        }
      }
      DoneMoving(oldData, before, was, far);
    }

    /** What moving slot `i` amounts to. */
    lemma MovingNext(oldData: array<Slot<K, V>>, before: map<K, V>, was: seq<Slot<K, V>>, far: map<K, nat>, i: nat)
      requires Moving(oldData, before, was, far, i) && i < oldData.Length
      ensures Valid() && !Overloaded() && size == |contents| && data != oldData && capacity >= 2 * |was|
      ensures Source(oldData, before, was, far) && |was| == oldData.Length
      ensures oldData[i].Free? ==> Moved(contents, before, was, hash, far, i + 1)
      ensures oldData[i].Used? ==> oldData[i].key !in contents
      ensures oldData[i].Used? ==> Moved(contents[oldData[i].key := oldData[i].value], before, was, hash, far, i + 1)
    {
      MovedNext(contents, before, was, hash, far, i);
      MovedSize(contents, before, was, hash, far, i);
      assert was[i] == oldData[i];
    }

    lemma NowMoving(oldData: array<Slot<K, V>>, before: map<K, V>, was: seq<Slot<K, V>>, far: map<K, nat>, n: nat)
      requires Valid() && data != oldData && Source(oldData, before, was, far)
      requires size == |contents| && Moved(contents, before, was, hash, far, n) && capacity >= 2 * |was|
      ensures Moving(oldData, before, was, far, n)
    {
    }

    method MoveEntry(oldData: array<Slot<K, V>>, i: nat, ghost before: map<K, V>, ghost was: seq<Slot<K, V>>,
                     ghost far: map<K, nat>)
      returns (status: Storing)
      requires Moving(oldData, before, was, far, i) && i < oldData.Length
      modifies this, data
      ensures Valid() && (data == old(data) || fresh(data)) && capacity >= old(capacity)
      ensures status.Done? ==> Moving(oldData, before, was, far, i + 1)
      ensures overloads == old(overloads)
      ensures Grown(old(capacity), Refused() - old(Refused()), status)
      decreases Reserve(), 3
    {
      hide *;
      MovingNext(oldData, before, was, far, i);
      status := Done;
      NotGrown(Done);
      if oldData[i].Used? {
        NewKey(contents, oldData[i].key, oldData[i].value);
        status := Put(oldData[i].key, oldData[i].value);
      }
      if status.Done? {
        NowMoving(oldData, before, was, far, i + 1);
      }
    }
  }
}
