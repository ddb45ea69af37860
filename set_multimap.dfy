/**
 * `SetMultimap`: an outer HAMT from chain epoch to the root of an inner
 * HAMT Set of deal ids.
 *
 * The trie layer is modelled by its logical contents.  Because the trie is
 * content-addressed (equal contents give equal roots), the root `Cid` of a
 * Set is identified with the set of its member keys, and the outer map with
 * a finite map from encoded epoch to that set: `Table`.  Blockstore and
 * node-decoding failures are not computed: each trie-touching operation takes
 * `fault`, the error the store raises during that operation, if any.
 */
module SetMultimaps {
  import opened Wrappers
  import opened Bytes
  import opened UintKey

  /** `fvm_ipld_hamt::Error` as seen by this file. */
  datatype Error =
    | Store(detail: nat)            // missing block, malformed node, failed flush
    | KeyParse(cause: ParseError)   // a member key that `parse_uint_key` rejects
    | Callback(detail: nat)         // an error returned by the `for_each` callback

  /** Logical contents of the outer map: encoded epoch -> member keys of its Set. */
  type Table = map<BytesKey, set<BytesKey>>

  /** The `for_each` callback (`FnMut(DealID) -> Result<(), Error>`), written
      as a function of the state the closure captures and mutates. */
  type Callback<!S> = (S, u64) -> (S, Outcome<Error>)

  // ---------------------------------------------------------------------
  // The abstract view: what `get` and `for_each` observe of a table.

  /** What `get(epoch)` returns on a table when no trie error occurs. */
  function Entry(t: Table, epoch: i64): Option<set<BytesKey>>
  {
    if EpochKey(epoch) in t then Some(t[EpochKey(epoch)]) else None
  }

  /** The Set `put` starts from: the existing one, or a new empty Set. */
  function MembersOf(t: Table, epoch: i64): set<BytesKey>
  {
    if EpochKey(epoch) in t then t[EpochKey(epoch)] else {}
  }

  /** The member keys of a batch of deal ids. */
  function KeysOf(values: seq<u64>): set<BytesKey>
  {
    set v | v in values :: U64Key(v)
  }

  /** The deal ids a Set holds: its members that decode as `u64` keys. */
  function DealIds(members: set<BytesKey>): set<u64>
  {
    set k | k in members && ParseUintKey(k).Success? :: ParseUintKey(k).value
  }

  /** Table after a successful `put_many(epoch, values)`; `put(epoch, v)` is `values == [v]`. */
  function Inserted(t: Table, epoch: i64, values: seq<u64>): Table
  {
    t[EpochKey(epoch) := MembersOf(t, epoch) + KeysOf(values)]
  }

  /** Table after a successful `remove(epoch, v)`. */
  function Removed(t: Table, epoch: i64, v: u64): Table
  {
    if EpochKey(epoch) in t then t[EpochKey(epoch) := t[EpochKey(epoch)] - {U64Key(v)}] else t
  }

  /** Table after a successful `remove_all(epoch)`. */
  function Cleared(t: Table, epoch: i64): Table
  {
    t - {EpochKey(epoch)}
  }

  /** Every member key of every Set is `Encoded`: the keys `u64_key` writes. */
  ghost predicate KeysEncoded(t: Table)
  {
    forall e, k :: e in t && k in t[e] ==> Encoded(k)
  }

  // ---------------------------------------------------------------------
  // Properties of the operations, stated on what `get` observes.

  /** `put_many` creates or extends exactly the entry of its epoch. */
  lemma InsertedEntry(t: Table, epoch: i64, values: seq<u64>)
    ensures Entry(Inserted(t, epoch, values), epoch) == Some(MembersOf(t, epoch) + KeysOf(values))
    ensures forall other: i64 :: other != epoch ==> Entry(Inserted(t, epoch, values), other) == Entry(t, other)
  {
    forall other: i64 | other != epoch
      ensures Entry(Inserted(t, epoch, values), other) == Entry(t, other)
    {
      EpochKeyInjective(epoch, other);
    }
  }

  /** After `put(epoch, v)` the entry holds `v` and every member it held before. */
  lemma PutKeepsAndAdds(t: Table, epoch: i64, v: u64)
    ensures Entry(Inserted(t, epoch, [v]), epoch).Some?
    ensures U64Key(v) in Entry(Inserted(t, epoch, [v]), epoch).value
    ensures Entry(t, epoch).Some? ==> Entry(t, epoch).value <= Entry(Inserted(t, epoch, [v]), epoch).value
    ensures v in DealIds(Entry(Inserted(t, epoch, [v]), epoch).value)
  {
    assert U64Key(v) in KeysOf([v]);
    ParseU64Key(v);
  }

  /** `put` on an epoch without entry starts from an empty Set. */
  lemma PutOnAbsentEpoch(t: Table, epoch: i64, v: u64)
    requires Entry(t, epoch).None?
    ensures Entry(Inserted(t, epoch, [v]), epoch) == Some({U64Key(v)})
    ensures DealIds(Entry(Inserted(t, epoch, [v]), epoch).value) == {v}
  {
    var after := Inserted(t, epoch, [v]);
    assert KeysOf([v]) == {U64Key(v)};
    assert MembersOf(t, epoch) == {};
    assert after[EpochKey(epoch)] == {U64Key(v)};
    assert Entry(after, epoch) == Some(after[EpochKey(epoch)]);
    ParseU64Key(v);
    DealIdsOfKeys([v]);
  }

  /** `put_many` with no values still creates an (empty) entry. */
  lemma PutManyNothing(t: Table, epoch: i64)
    ensures Entry(Inserted(t, epoch, []), epoch) == Some(MembersOf(t, epoch))
  {
    var after := Inserted(t, epoch, []);
    assert KeysOf([]) == {};
    assert after[EpochKey(epoch)] == MembersOf(t, epoch);
    assert Entry(after, epoch) == Some(after[EpochKey(epoch)]);
  }

  /** The deal ids of a batch's keys are exactly the batch's values. */
  lemma DealIdsOfKeys(values: seq<u64>)
    ensures DealIds(KeysOf(values)) == set v | v in values
  {
    forall v | v in values ensures v in DealIds(KeysOf(values)) {
      ParseU64Key(v);
    }
    forall n | n in DealIds(KeysOf(values)) ensures n in values {
      var k :| k in KeysOf(values) && ParseUintKey(k).Success? && ParseUintKey(k).value == n;
      var w :| w in values && U64Key(w) == k;
      ParseU64Key(w);
    }
  }

  /** After `put_many` the epoch's deal ids are the old ones plus the batch. */
  lemma PutManyDealIds(t: Table, epoch: i64, values: seq<u64>)
    ensures DealIds(Entry(Inserted(t, epoch, values), epoch).value)
         == DealIds(MembersOf(t, epoch)) + set v | v in values
  {
    DealIdsOfKeys(values);
    DealIdsUnion(MembersOf(t, epoch), KeysOf(values));
  }

  lemma DealIdsUnion(a: set<BytesKey>, b: set<BytesKey>)
    ensures DealIds(a + b) == DealIds(a) + DealIds(b)
  {
  }

  /** `remove` on an epoch without entry changes nothing. */
  lemma RemoveAbsentIsNoOp(t: Table, epoch: i64, v: u64)
    requires Entry(t, epoch).None?
    ensures Removed(t, epoch, v) == t
  {
  }

  /** `remove` takes out one member, never prunes the entry, and leaves other epochs alone. */
  lemma RemoveKeepsEntry(t: Table, epoch: i64, v: u64)
    requires Entry(t, epoch).Some?
    ensures Entry(Removed(t, epoch, v), epoch) == Some(Entry(t, epoch).value - {U64Key(v)})
    ensures Entry(t, epoch) == Some({U64Key(v)}) ==> Entry(Removed(t, epoch, v), epoch) == Some({})
    ensures forall other: i64 :: other != epoch ==> Entry(Removed(t, epoch, v), other) == Entry(t, other)
  {
    forall other: i64 | other != epoch
      ensures Entry(Removed(t, epoch, v), other) == Entry(t, other)
    {
      EpochKeyInjective(epoch, other);
    }
    assert {U64Key(v)} - {U64Key(v)} == {};
  }

  /** On a table of `Encoded` keys, `remove` drops exactly the deal id `v`. */
  lemma RemoveDealIds(t: Table, epoch: i64, v: u64)
    requires Entry(t, epoch).Some? && KeysEncoded(t)
    ensures DealIds(Entry(Removed(t, epoch, v), epoch).value) == DealIds(Entry(t, epoch).value) - {v}
  {
    var before := Entry(t, epoch).value;
    var after := before - {U64Key(v)};
    assert Entry(Removed(t, epoch, v), epoch).value == after;
    forall n | n in DealIds(before) && n != v ensures n in DealIds(after) {
      var k :| k in before && ParseUintKey(k).Success? && ParseUintKey(k).value == n;
      assert Encoded(k);
      EncodedKey(v);
    }
    forall n | n in DealIds(after) ensures n != v {
      var k :| k in after && ParseUintKey(k).Success? && ParseUintKey(k).value == n;
      assert Encoded(k);
    }
  }

  /** After `remove_all` the epoch has no entry; other epochs are unchanged. */
  lemma ClearedEntry(t: Table, epoch: i64)
    ensures Entry(Cleared(t, epoch), epoch).None?
    ensures forall other: i64 :: other != epoch ==> Entry(Cleared(t, epoch), other) == Entry(t, other)
  {
    forall other: i64 | other != epoch
      ensures Entry(Cleared(t, epoch), other) == Entry(t, other)
    {
      EpochKeyInjective(epoch, other);
    }
  }

  /** `new` starts with `Encoded` keys, and `put_many`, `remove` and `remove_all`
      keep them so: a multimap built by these operations holds only `Encoded` keys. */
  lemma KeysEncodedPreserved(t: Table, epoch: i64, values: seq<u64>, v: u64)
    requires KeysEncoded(t)
    ensures KeysEncoded(map[])
    ensures KeysEncoded(Inserted(t, epoch, values))
    ensures KeysEncoded(Removed(t, epoch, v))
    ensures KeysEncoded(Cleared(t, epoch))
  {
    forall k | k in KeysOf(values) ensures Encoded(k) {
      var n :| n in values && k == U64Key(n);
      EncodedKey(n);
    }
  }

  // ---------------------------------------------------------------------
  // Traversal: the closure `for_each` hands to the inner Set.

  /** The sequence has no repeated element. */
  ghost predicate Distinct<K>(q: seq<K>)
  {
    forall i, j :: 0 <= i < j < |q| ==> q[i] != q[j]
  }

  /** `q` lists every element of `s` exactly once, in some order. */
  ghost predicate Enumerates<K(!new)>(q: seq<K>, s: set<K>)
  {
    Distinct(q) && forall k :: k in q <==> k in s
  }

  /** One member visit: parse the key, then run the callback on the deal id.
      A key that does not parse fails with `KeyParse` before the callback runs. */
  function Visit<S>(k: BytesKey, f: Callback<S>, s: S): (res: (S, Outcome<Error>))
    ensures ParseUintKey(k).Failure? ==> res == (s, Fail(KeyParse(ParseUintKey(k).error)))
  {
    match ParseUintKey(k)
    case Failure(e) => (s, Fail(KeyParse(e)))
    case Success(v) => f(s, v)
  }

  /** The closure passes the callback the deal id a member key encodes. */
  lemma VisitKey<S>(n: u64, f: Callback<S>, s: S)
    ensures Visit(U64Key(n), f, s) == f(s, n)
  {
    ParseU64Key(n);
  }

  /** Visiting `keys` in order, stopping at the first failure, whose error is
      the result.  A traversal that passes has parsed every key. */
  function Traverse<S>(keys: seq<BytesKey>, f: Callback<S>, s: S): (res: (S, Outcome<Error>))
    ensures res.1.Pass? ==> forall i :: 0 <= i < |keys| ==> ParseUintKey(keys[i]).Success?
  {
    if keys == [] then (s, Pass)
    else
      var (s', o) := Visit(keys[0], f, s);
      assert forall i :: 0 < i < |keys| ==> keys[i] == keys[1..][i - 1];
      if o.Fail? then (s', o) else Traverse(keys[1..], f, s')
  }

  /** Extending a traversal that has not failed visits the new key next. */
  lemma {:induction false} TraverseSnoc<S>(keys: seq<BytesKey>, k: BytesKey, f: Callback<S>, s: S)
    requires Traverse(keys, f, s).1.Pass?
    ensures Traverse(keys + [k], f, s) == Visit(k, f, Traverse(keys, f, s).0)
  {
    if keys == [] {
      assert [] + [k] == [k];
    } else {
      var (s', o) := Visit(keys[0], f, s);
      assert (keys + [k])[1..] == keys[1..] + [k];
      TraverseSnoc(keys[1..], k, f, s');
    }
  }

  /** Once a traversal has failed, no later key is visited. */
  lemma {:induction false} TraverseStops<S>(keys: seq<BytesKey>, rest: seq<BytesKey>, f: Callback<S>, s: S)
    requires Traverse(keys, f, s).1.Fail?
    ensures Traverse(keys + rest, f, s) == Traverse(keys, f, s)
  {
    var (s', o) := Visit(keys[0], f, s);
    if o.Pass? {
      assert (keys + rest)[1..] == keys[1..] + rest;
      TraverseStops(keys[1..], rest, f, s');
    }
  }

  /** A callback that records every deal id it is called with and never fails. */
  function Record(log: seq<u64>, v: u64): (seq<u64>, Outcome<Error>)
  {
    (log + [v], Pass)
  }

  /** Every key is one `parse_uint_key` accepts. */
  ghost predicate WellFormed(keys: seq<BytesKey>)
  {
    forall i :: 0 <= i < |keys| ==> ParseUintKey(keys[i]).Success?
  }

  /** The deal ids of well-formed keys, in order. */
  function Decoded(keys: seq<BytesKey>): (ids: seq<u64>)
    requires WellFormed(keys)
    ensures |ids| == |keys|
  {
    if keys == [] then [] else [ParseUintKey(keys[0]).value] + Decoded(keys[1..])
  }

  /** Decoding preserves positions: the i-th id is the i-th key parsed. */
  lemma {:induction false} DecodedAt(keys: seq<BytesKey>, i: nat)
    requires WellFormed(keys) && i < |keys|
    ensures Decoded(keys)[i] == ParseUintKey(keys[i]).value
  {
    if i > 0 {
      DecodedAt(keys[1..], i - 1);
    }
  }

  /** With a recording callback and well-formed keys, the traversal calls the
      callback once per key, in order, and succeeds. */
  lemma {:induction false} TraverseRecords(keys: seq<BytesKey>, log: seq<u64>)
    requires WellFormed(keys)
    ensures Traverse(keys, Record, log) == (log + Decoded(keys), Pass)
  {
    if keys == [] {
      assert log + Decoded(keys) == log;
    } else {
      var id := ParseUintKey(keys[0]).value;
      assert WellFormed(keys[1..]) by {
        forall i | 0 <= i < |keys[1..]| ensures ParseUintKey(keys[1..][i]).Success? {
          assert keys[1..][i] == keys[i + 1];
        }
      }
      TraverseRecords(keys[1..], log + [id]);
      assert Decoded(keys) == [id] + Decoded(keys[1..]);
      assert (log + [id]) + Decoded(keys[1..]) == log + ([id] + Decoded(keys[1..]));
    }
  }

  /** Two repetition-free sequences with no common element concatenate without repetition. */
  lemma DistinctAppend<K>(a: seq<K>, b: seq<K>)
    requires Distinct(a) && Distinct(b)
    requires forall x :: x in a ==> x !in b
    ensures Distinct(a + b)
  {
    forall i, j | 0 <= i < j < |a + b| ensures (a + b)[i] != (a + b)[j] {
      if i < |a| && |a| <= j {
        assert (a + b)[i] in a && (a + b)[j] in b;
      }
    }
  }

  /** Every finite set can be listed without repetition. */
  lemma {:induction false} EnumerationExists<K(!new)>(s: set<K>) returns (q: seq<K>)
    ensures Enumerates(q, s)
  {
    if s == {} {
      q := [];
    } else {
      var x :| x in s;
      var q' := EnumerationExists(s - {x});
      q := [x] + q';
    }
  }

  // ---------------------------------------------------------------------
  // The multimap itself.

  class SetMultimap {
    /** The outer map `self.0`, by its contents. */
    var table: Table

    /** `new`: an empty multimap. */
    constructor ()
      ensures table == map[]
    {
      table := map[];
    }

    /** `from_root`: open the multimap whose root is `root`. */
    static method FromRoot(root: Table, fault: Option<Error>) returns (r: Result<SetMultimap, Error>)
      ensures fault.Some? ==> r == Failure(fault.value)
      ensures fault.None? ==> r.Success? && fresh(r.value) && r.value.table == root
    {
      if fault.Some? {
        return Failure(fault.value);
      }
      var m := new SetMultimap();
      m.table := root;
      r := Success(m);
    }

    /** `root`: flush and return the root, which depends on the contents only. */
    method Root(fault: Option<Error>) returns (r: Result<Table, Error>)
      ensures fault.Some? ==> r == Failure(fault.value)
      ensures fault.None? ==> r == Success(table)
    {
      if fault.Some? {
        return Failure(fault.value);
      }
      r := Success(table);
    }

    /** `get`: the Set of `key`, or `None` exactly when `key` has no entry; reads only. */
    method Get(key: i64, fault: Option<Error>) returns (r: Result<Option<set<BytesKey>>, Error>)
      ensures fault.Some? ==> r == Failure(fault.value)
      ensures fault.None? ==> r.Success?
      ensures fault.None? ==> (r.value.None? <==> EpochKey(key) !in table)
      ensures fault.None? && r.value.Some? ==> r.value.value == table[EpochKey(key)]
    {
      if fault.Some? {
        return Failure(fault.value);
      }
      if EpochKey(key) in table {
        r := Success(Some(table[EpochKey(key)]));
      } else {
        r := Success(None);
      }
    }

    /** `put`: add `value` to the Set of `key`, creating the Set when missing. */
    method Put(key: i64, value: u64, fault: Option<Error>) returns (r: Outcome<Error>)
      modifies this
      ensures fault.Some? ==> r == Fail(fault.value) && table == old(table)
      ensures fault.None? ==> r == Pass && table == Inserted(old(table), key, [value])
    {
      var found := Get(key, fault);
      if found.Failure? {
        return Fail(found.error);
      }
      var members := if found.value.Some? then found.value.value else {};
      members := members + {U64Key(value)};
      assert KeysOf([value]) == {U64Key(value)};
      table := table[EpochKey(key) := members];
      r := Pass;
    }

    /** `put_many`: add every value to the Set of `key`, flushing the Set once. */
    method PutMany(key: i64, values: seq<u64>, fault: Option<Error>) returns (r: Outcome<Error>)
      modifies this
      ensures fault.Some? ==> r == Fail(fault.value) && table == old(table)
      ensures fault.None? ==> r == Pass && table == Inserted(old(table), key, values)
    {
      var found := Get(key, fault);
      if found.Failure? {
        return Fail(found.error);
      }
      var members := if found.value.Some? then found.value.value else {};
      ghost var start := members;
      var i := 0;
      while i < |values|
        invariant 0 <= i <= |values|
        invariant members == start + KeysOf(values[..i])
      {
        assert values[..i + 1] == values[..i] + [values[i]];
        assert KeysOf(values[..i + 1]) == KeysOf(values[..i]) + {U64Key(values[i])};
        members := members + {U64Key(values[i])};
        i := i + 1;
      }
      assert values[..i] == values;
      table := table[EpochKey(key) := members];
      r := Pass;
    }

    /** `remove`: take `v` out of the Set of `key`; a missing entry is left missing. */
    method Remove(key: i64, v: u64, fault: Option<Error>) returns (r: Outcome<Error>)
      modifies this
      ensures fault.Some? ==> r == Fail(fault.value) && table == old(table)
      ensures fault.None? ==> r == Pass && table == Removed(old(table), key, v)
    {
      var found := Get(key, fault);
      if found.Failure? {
        return Fail(found.error);
      }
      if found.value.None? {
        return Pass;
      }
      var members := found.value.value - {U64Key(v)};
      table := table[EpochKey(key) := members];
      r := Pass;
    }

    /** `remove_all`: delete the whole entry of `key`, present or not. */
    method RemoveAll(key: i64, fault: Option<Error>) returns (r: Outcome<Error>)
      modifies this
      ensures fault.Some? ==> r == Fail(fault.value) && table == old(table)
      ensures fault.None? ==> r == Pass && table == Cleared(old(table), key)
    {
      if fault.Some? {
        return Fail(fault.value);
      }
      table := table - {EpochKey(key)};
      r := Pass;
    }

    /** `for_each`: run `f` on the deal id of every member of the Set of `key`
        in trie order (`order`, which lists each member once), stopping at
        the first parse or callback error; `s` is the callback's final state. */
    method ForEach<S>(key: i64, f: Callback<S>, init: S, fault: Option<Error>)
      returns (r: Outcome<Error>, s: S, ghost order: seq<BytesKey>)
      ensures fault.Some? ==> r == Fail(fault.value) && s == init
      ensures fault.None? && EpochKey(key) !in table ==> r == Pass && s == init
      ensures fault.None? && EpochKey(key) in table ==>
        Enumerates(order, table[EpochKey(key)]) && (s, r) == Traverse(order, f, init)
    {
      var found := Get(key, fault);
      if found.Failure? {
        return Fail(found.error), init, [];
      }
      if found.value.None? {
        return Pass, init, [];
      }
      var members := found.value.value;
      var remaining := members;
      r, s, order := Pass, init, [];
      while remaining != {} && r.Pass?
        invariant remaining <= members
        invariant Distinct(order)
        invariant forall k :: k in order <==> k in members && k !in remaining
        invariant (s, r) == Traverse(order, f, init)
        decreases remaining
      {
        var k :| k in remaining;
        TraverseSnoc(order, k, f, init);
        order := order + [k];
        remaining := remaining - {k};
        match ParseUintKey(k)
        case Failure(e) =>
          r := Fail(KeyParse(e));
        case Success(v) =>
          var (s', o) := f(s, v);
          s, r := s', o;
      }
      if remaining != {} {
        ghost var rest := EnumerationExists(remaining);
        TraverseStops(order, rest, f, init);
        DistinctAppend(order, rest);
        order := order + rest;
      }
    }
  }

  /** A read-only client: collecting the deal ids of an epoch with a recording
      callback visits every member exactly once. */
  method CollectDealIds(m: SetMultimap, key: i64) returns (r: Outcome<Error>, ids: seq<u64>)
    requires EpochKey(key) in m.table && KeysEncoded(m.table)
    ensures r == Pass
    ensures Distinct(ids)
    ensures forall v :: v in ids <==> v in DealIds(m.table[EpochKey(key)])
  {
    ghost var order;
    r, ids, order := m.ForEach(key, Record, [], None);
    var members := m.table[EpochKey(key)];
    assert WellFormed(order) by {
      forall i | 0 <= i < |order| ensures ParseUintKey(order[i]).Success? {
        assert order[i] in m.table[EpochKey(key)];
        assert Encoded(order[i]);
      }
    }
    TraverseRecords(order, []);
    assert ids == Decoded(order);
    forall i, j | 0 <= i < j < |ids| ensures ids[i] != ids[j] {
      DecodedAt(order, i);
      DecodedAt(order, j);
      assert Encoded(order[i]) && Encoded(order[j]);
    }
    forall v | v in ids ensures v in DealIds(members) {
      var i :| 0 <= i < |ids| && ids[i] == v;
      DecodedAt(order, i);
    }
    forall v | v in DealIds(members) ensures v in ids {
      var k :| k in members && ParseUintKey(k).Success? && ParseUintKey(k).value == v;
      var i :| 0 <= i < |order| && order[i] == k;
      DecodedAt(order, i);
    }
  }
}
