/** `InstructionCache`: a bounded least-recently-used memo of the port's answers. */
module InsnCache {
  import opened Values
  import opened InsnModel
  import opened Port

  /** An insertion-ordered dictionary, least recently used key first. */
  datatype OrderedDict<V> = OrderedDict(keys: seq<int>, entries: map<int, V>)
  {
    ghost predicate Valid() {
      && (forall k :: k in keys <==> k in entries)
      && Distinct(keys)
    }

    function MoveToEnd(key: int): OrderedDict<V> { this.(keys := Without(keys, key) + [key]) }

    function Put(key: int, value: V): OrderedDict<V> {
      OrderedDict(Without(keys, key) + [key], entries[key := value])
    }

    function PopFirst(): OrderedDict<V>
      requires |keys| > 0
    {
      OrderedDict(keys[1..], entries - {keys[0]})
    }

    function Pop(key: int): OrderedDict<V> { OrderedDict(Without(keys, key), entries - {key}) }
  }

  ghost predicate Distinct(keys: seq<int>) { forall i, j :: 0 <= i < j < |keys| ==> keys[i] != keys[j] }

  function Without(keys: seq<int>, key: int): (r: seq<int>)
    ensures forall k :: k in r <==> k in keys && k != key
    ensures key !in keys ==> r == keys
    ensures Distinct(keys) ==> Distinct(r) && |r| == |keys| - if key in keys then 1 else 0
  {
    if keys == [] then []
    else
      var rest := Without(keys[1..], key);
      assert forall k :: k in keys <==> k == keys[0] || k in keys[1..];
      assert Distinct(keys) ==> Distinct(keys[1..]) && keys[0] !in keys[1..];
      if keys[0] == key then rest else [keys[0]] + rest
  }

  /** Without the oldest key, if they are too many. */
  function Trimmed(keys: seq<int>, limit: nat): seq<int> { if |keys| > limit then keys[1..] else keys }

  /** The recency list after one more use of `key`. */
  function Used(keys: seq<int>, key: int, limit: nat): seq<int> {
    Trimmed(Without(keys, key) + [key], limit)
  }

  function UsedAll(keys: seq<int>, uses: seq<int>, limit: nat): seq<int> {
    if uses == [] then keys
    else Used(UsedAll(keys, uses[..|uses| - 1], limit), uses[|uses| - 1], limit)
  }

  class InstructionCache {
    const port: IdaPort
    const maxEntries: int
    var insns: OrderedDict<Option<Instruction>>
    var xrefs: OrderedDict<seq<int>>

    ghost predicate Valid()
      reads this
    {
      && insns.Valid() && xrefs.Valid()
      && |insns.keys| <= Limit() && |xrefs.keys| <= Limit()
      && (forall k :: k in insns.entries ==> insns.entries[k] == port.decodeAt(k))
      && (forall k :: k in xrefs.entries ==> xrefs.entries[k] == port.codeRefsTo(k))
    }

    function Limit(): nat { if maxEntries < 0 then 0 else maxEntries }

    constructor (port: IdaPort, maxEntries: int)
      ensures Valid() && this.port == port && this.maxEntries == maxEntries
      ensures insns.keys == [] && xrefs.keys == []
    {
      this.port := port;
      this.maxEntries := maxEntries;
      insns := OrderedDict([], map[]);
      xrefs := OrderedDict([], map[]);
    }

    /** Answers what the port answers, `None` included, and makes `ea` the most recent. */
    method Get(ea: int) returns (insn: Option<Instruction>)
      requires Valid()
      modifies this
      ensures Valid() && xrefs == old(xrefs)
      ensures insn == port.decodeAt(ea)
      ensures insns.keys == Used(old(insns.keys), ea, Limit())
    {
      var cached, touched := Lookup(insns, ea);
      insns := touched;
      if cached.Some? {
        return cached.value;
      }
      insn := port.decodeAt(ea);
      insns := Store(insns, ea, insn);
    }

    method CodeRefsTo(ea: int) returns (refs: seq<int>)
      requires Valid()
      modifies this
      ensures Valid() && insns == old(insns)
      ensures refs == port.codeRefsTo(ea)
      ensures xrefs.keys == Used(old(xrefs.keys), ea, Limit())
    {
      var cached, touched := Lookup(xrefs, ea);
      xrefs := touched;
      if cached.Some? {
        return cached.value;
      }
      refs := port.codeRefsTo(ea);
      xrefs := Store(xrefs, ea, refs);
    }

    method Invalidate(ea: Option<int>)
      requires Valid()
      modifies this
      ensures Valid()
      ensures insns.keys == if ea.Some? then Without(old(insns.keys), ea.value) else []
      ensures xrefs.keys == if ea.Some? then Without(old(xrefs.keys), ea.value) else []
    {
      if ea.None? {
        insns := OrderedDict([], map[]);
        xrefs := OrderedDict([], map[]);
        return;
      }
      insns := insns.Pop(ea.value);
      xrefs := xrefs.Pop(ea.value);
    }

    /** Absence is `None`; a cached `None` comes back as `Some(None)`. */
    method Lookup<V>(cache: OrderedDict<V>, key: int) returns (found: Option<V>, touched: OrderedDict<V>)
      requires cache.Valid()
      ensures touched.Valid() && touched.entries == cache.entries
      ensures found == if key in cache.entries then Some(cache.entries[key]) else None
      ensures touched.keys == if key in cache.keys then Without(cache.keys, key) + [key] else cache.keys
    {
      if key !in cache.entries {
        return None, cache;
      }
      touched := cache.MoveToEnd(key);
      found := Some(touched.entries[key]);
    }

    method Store<V>(cache: OrderedDict<V>, key: int, value: V) returns (stored: OrderedDict<V>)
      requires cache.Valid() && |cache.keys| <= Limit()
      ensures stored.Valid() && |stored.keys| <= Limit()
      ensures stored.keys == Used(cache.keys, key, Limit())
      ensures forall k :: k in stored.entries ==> stored.entries[k] == cache.entries[key := value][k]
    {
      stored := cache.Put(key, value);
      if |stored.keys| > maxEntries {
        assert stored.keys[0] !in stored.keys[1..];
        assert forall k :: k in stored.keys <==> k == stored.keys[0] || k in stored.keys[1..];
        stored := stored.PopFirst();
      }
    }
  }

  /** The position of the last use of `key`, or -1. */
  function LastUse(uses: seq<int>, key: int): (r: int)
    ensures -1 <= r < |uses|
    ensures r == -1 <==> key !in uses
  {
    if uses == [] then -1
    else if uses[|uses| - 1] == key then |uses| - 1
    else LastUse(uses[..|uses| - 1], key)
  }

  ghost predicate Ascending(keys: seq<int>, uses: seq<int>) {
    forall i, j :: 0 <= i < j < |keys| ==> LastUse(uses, keys[i]) < LastUse(uses, keys[j])
  }

  /** `keys` are the most recently used distinct keys of `uses`, oldest first: nothing
    newer was left out, and something was left out only because the list is full. */
  ghost predicate MostRecent(keys: seq<int>, uses: seq<int>, limit: nat) {
    && |keys| <= limit
    && (forall k :: k in keys ==> k in uses)
    && Ascending(keys, uses)
    && (forall k :: k in uses && k !in keys ==>
          |keys| == limit && forall l :: l in keys ==> LastUse(uses, k) < LastUse(uses, l))
  }

  lemma {:induction false} WithoutKeepsOrder(keys: seq<int>, key: int, uses: seq<int>)
    requires Ascending(keys, uses)
    ensures Ascending(Without(keys, key), uses)
  {
    if keys != [] {
      WithoutKeepsOrder(keys[1..], key, uses);
      var rest, r := Without(keys[1..], key), Without(keys, key);
      forall i, j | 0 <= i < j < |r| ensures LastUse(uses, r[i]) < LastUse(uses, r[j]) {
        if keys[0] != key {
          assert r[j] == rest[j - 1] && rest[j - 1] in keys[1..];
          if i > 0 { assert r[i] == rest[i - 1]; }
        }
      }
    }
  }

  /** One more use moves its key to the end of an ascending list. */
  lemma MovedIsAscending(keys: seq<int>, uses: seq<int>, key: int)
    requires Ascending(keys, uses)
    ensures Ascending(Without(keys, key) + [key], uses + [key])
    ensures LastUse(uses + [key], key) == |uses|
    ensures forall k :: k != key ==> LastUse(uses + [key], k) == LastUse(uses, k)
  {
    WithoutKeepsOrder(keys, key, uses);
    assert (uses + [key])[..|uses|] == uses;
    var r, next := Without(keys, key), uses + [key];
    forall i, j | 0 <= i < j < |r + [key]| ensures LastUse(next, (r + [key])[i]) < LastUse(next, (r + [key])[j]) {
      assert r[i] in r;
      if j < |r| { assert r[j] in r; }
    }
  }

  /** However many keys are used, in whatever order, the cache holds the most recent. */
  lemma {:induction false} CacheHoldsTheMostRecent(uses: seq<int>, limit: nat)
    ensures MostRecent(UsedAll([], uses, limit), uses, limit)
  {
    if uses != [] {
      var front, key := uses[..|uses| - 1], uses[|uses| - 1];
      CacheHoldsTheMostRecent(front, limit);
      assert uses == front + [key];
      OneMoreUse(UsedAll([], front, limit), front, key, limit);
    }
  }

  lemma OneMoreUse(keys: seq<int>, front: seq<int>, key: int, limit: nat)
    requires MostRecent(keys, front, limit)
    ensures MostRecent(Used(keys, key, limit), front + [key], limit)
  {
    var uses, next := front + [key], Used(keys, key, limit);
    hide Without, Used, LastUse;
    UsedIsListed(keys, front, key, limit);
    forall k | k in uses && k !in next
      ensures |next| == limit && forall l :: l in next ==> LastUse(uses, k) < LastUse(uses, l)
    {
      if k !in keys && k != key { LeftOutIsOlder(keys, front, key, limit, k); }
    }
  }

  /** The keys kept ascend, and one that had to go is older than all of them. */
  lemma UsedIsListed(keys: seq<int>, front: seq<int>, key: int, limit: nat)
    requires MostRecent(keys, front, limit)
    ensures var next := Used(keys, key, limit);
      && |next| <= limit && Ascending(next, front + [key])
      && (forall k :: k in next ==> k in keys || k == key)
      && (forall k :: (k in keys || k == key) && k !in next ==>
            |next| == limit && forall l :: l in next ==> LastUse(front + [key], k) < LastUse(front + [key], l))
  {
    var moved := Without(keys, key) + [key];
    MovedIsAscending(keys, front, key);
    AscendingIsDistinct(keys, front);
    hide LastUse, Without, Ascending, Distinct;
    assert forall k :: k in moved <==> k in keys || k == key;
    TrimmedIsListed(moved, front + [key], limit);
  }

  lemma AscendingIsDistinct(keys: seq<int>, uses: seq<int>)
    requires Ascending(keys, uses)
    ensures Distinct(keys)
  {
    hide LastUse;
  }

  lemma TrimmedIsListed(keys: seq<int>, uses: seq<int>, limit: nat)
    requires keys != [] && Ascending(keys, uses) && |keys| <= limit + 1
    ensures var next := Trimmed(keys, limit);
      && |next| <= limit && Ascending(next, uses) && (forall k :: k in next ==> k in keys)
      && (forall k :: k in keys && k !in next ==> |next| == limit && forall l :: l in next ==> LastUse(uses, k) < LastUse(uses, l))
  {
    TailIsAscending(keys, uses);
    hide LastUse, Ascending;
    assert forall k :: k in keys <==> k == keys[0] || k in keys[1..];
  }

  lemma LeftOutIsOlder(keys: seq<int>, front: seq<int>, key: int, limit: nat, k: int)
    requires MostRecent(keys, front, limit) && k in front && k !in keys && k != key
    ensures |keys| == limit && |Used(keys, key, limit)| == limit
    ensures forall l :: l in keys || l == key ==> LastUse(front + [key], k) < LastUse(front + [key], l)
  {
    MovedIsAscending(keys, front, key);
    hide LastUse;
  }

  /** The first is older than the rest, and the rest ascend. */
  lemma TailIsAscending(keys: seq<int>, uses: seq<int>)
    requires keys != [] && Ascending(keys, uses)
    ensures Ascending(keys[1..], uses)
    ensures forall l :: l in keys[1..] ==> LastUse(uses, keys[0]) < LastUse(uses, l)
  {
    hide LastUse;
    forall l | l in keys[1..] ensures LastUse(uses, keys[0]) < LastUse(uses, l) {
      var i :| 0 <= i < |keys[1..]| && keys[1..][i] == l;
      assert keys[i + 1] == l;
    }
  }

  lemma {:induction false} RebuiltByItsKeys(keys: seq<int>, limit: nat)
    requires |keys| <= limit && Distinct(keys)
    ensures UsedAll([], keys, limit) == keys
  {
    if keys != [] {
      var front, key := keys[..|keys| - 1], keys[|keys| - 1];
      RebuiltByItsKeys(front, limit);
      assert key !in front && keys == front + [key];
    }
  }

  /** After an invalidation the surviving keys count as the uses that came first. */
  lemma {:induction false} CacheResumesFrom(keys: seq<int>, uses: seq<int>, limit: nat)
    requires |keys| <= limit && Distinct(keys)
    ensures UsedAll(keys, uses, limit) == UsedAll([], keys + uses, limit)
  {
    if uses == [] {
      RebuiltByItsKeys(keys, limit);
      assert keys + uses == keys;
    } else {
      var front, key := uses[..|uses| - 1], uses[|uses| - 1];
      CacheResumesFrom(keys, front, limit);
      assert keys + uses == (keys + front) + [key];
      assert ((keys + front) + [key])[..|keys + front|] == keys + front;
    }
  }
}
