/** The storage engine: one process-wide map from record id to record. */
module Storage {
  import opened Models

  /** Every key is the id of the record stored under it. */
  ghost predicate KeyedById(m: map<Id, Record>)
  {
    forall k :: k in m ==> m[k].id == k
  }

  /** `TryAdd` on the map: an absent id is inserted, a present id keeps the
      record that was written first. */
  function TryAdd(m: map<Id, Record>, r: Record): (m': map<Id, Record>)
    ensures m'.Keys == m.Keys + {r.id}
    ensures KeyedById(m) ==> KeyedById(m')
  {
    if r.id in m then m else m[r.id := r]
  }

  /** A batch insert: the single insert folded over the batch, left to right. */
  function AddAll(m: map<Id, Record>, rs: seq<Record>): (m': map<Id, Record>)
    ensures m'.Keys == m.Keys + set r | r in rs :: r.id
    ensures KeyedById(m) ==> KeyedById(m')
    decreases |rs|
  {
    if rs == [] then m
    else
      assert rs == [rs[0]] + rs[1..];
      AddAll(TryAdd(m, rs[0]), rs[1..])
  }

  /** The first record of `rs` whose id is `k`, if any. */
  function FirstWithId(rs: seq<Record>, k: Id): (r: Option<Record>)
    ensures r.Some? <==> exists i :: 0 <= i < |rs| && rs[i].id == k
    ensures r.Some? ==> exists i :: 0 <= i < |rs| && rs[i] == r.value && r.value.id == k
                                    && forall j :: 0 <= j < i ==> rs[j].id != k
  {
    if rs == [] then None
    else if rs[0].id == k then Some(rs[0])
    else
      var r := FirstWithId(rs[1..], k);
      assert r.Some? ==> exists i :: 0 < i < |rs| && rs[i] == r.value && r.value.id == k
                                     && forall j :: 0 <= j < i ==> rs[j].id != k by {
        if r.Some? {
          var i :| 0 <= i < |rs[1..]| && rs[1..][i] == r.value && r.value.id == k
                   && forall j :: 0 <= j < i ==> rs[1..][j].id != k;
          assert forall j :: 0 < j < i + 1 ==> rs[j] == rs[1..][j - 1];
        }
      }
      assert (exists i :: 0 <= i < |rs| && rs[i].id == k) ==> exists i :: 0 <= i < |rs[1..]| && rs[1..][i].id == k by {
        if exists i :: 0 <= i < |rs| && rs[i].id == k {
          var i :| 0 <= i < |rs| && rs[i].id == k;
          assert rs[1..][i - 1].id == k;
        }
      }
      r
  }

  /** No two records of `rs` share an id. */
  ghost predicate DistinctIds(rs: seq<Record>)
  {
    forall i, j :: 0 <= i < j < |rs| ==> rs[i].id != rs[j].id
  }

  /** `s` is a snapshot of `m`: exactly the stored records, each once, in
      some order. */
  ghost predicate IsSnapshot(s: seq<Record>, m: map<Id, Record>)
  {
    && |s| == |m|
    && (forall x :: x in s ==> x.id in m && m[x.id] == x)
    && (forall k :: k in m ==> m[k] in s)
  }

  /** The ids occurring in `s`. */
  ghost function IdSet(s: seq<Record>): set<Id>
  {
    set x | x in s :: x.id
  }

  lemma {:induction false} IdSetBound(s: seq<Record>)
    ensures |IdSet(s)| <= |s|
    decreases |s|
  {
    if s != [] {
      IdSetBound(s[1..]);
      assert IdSet(s) == {s[0].id} + IdSet(s[1..]) by {
        assert s == [s[0]] + s[1..];
      }
    }
  }

  /** A repeated id leaves fewer distinct ids than records. */
  lemma RepeatedIdShrinksIdSet(s: seq<Record>, i: nat, j: nat)
    requires i < j < |s| && s[i].id == s[j].id
    ensures |IdSet(s)| < |s|
  {
    var rest := s[..j] + s[j + 1..];
    assert s == s[..j] + [s[j]] + s[j + 1..];
    assert rest[i] == s[i];
    assert IdSet(s) == IdSet(rest) by {
      forall x | x in s ensures x.id in IdSet(rest) {
        var k :| 0 <= k < |s| && s[k] == x;
        if k < j { assert rest[k] == x; }
        else if k == j { assert rest[i].id == x.id; }
        else { assert rest[k - 1] == x; }
      }
    }
    IdSetBound(rest);
  }

  /** A snapshot lists every stored record exactly once: its ids are
      pairwise distinct. */
  lemma SnapshotHasDistinctIds(s: seq<Record>, m: map<Id, Record>)
    requires KeyedById(m)
    requires IsSnapshot(s, m)
    ensures DistinctIds(s)
  {
    assert IdSet(s) == m.Keys by {
      forall k | k in m ensures k in IdSet(s) {
        assert m[k] in s;
      }
    }
    assert |m.Keys| == |m|;
    if !DistinctIds(s) {
      var i, j :| 0 <= i < j < |s| && s[i].id == s[j].id;
      RepeatedIdShrinksIdSet(s, i, j);
    }
  }

  /** Any reordering of a snapshot is a snapshot. */
  lemma SnapshotPermutation(s: seq<Record>, t: seq<Record>, m: map<Id, Record>)
    requires IsSnapshot(s, m)
    requires multiset(t) == multiset(s)
    ensures IsSnapshot(t, m)
  {
    assert |t| == |multiset(t)| == |multiset(s)| == |s|;
    forall x ensures x in t <==> x in s {
      assert x in t <==> x in multiset(t);
      assert x in s <==> x in multiset(s);
    }
  }

  /** Adding a record whose id is absent makes a lookup of that id return
      exactly that record. */
  lemma AddAbsentThenLookup(m: map<Id, Record>, r: Record)
    requires r.id !in m
    ensures r.id in TryAdd(m, r) && TryAdd(m, r)[r.id] == r
    ensures |TryAdd(m, r)| == |m| + 1
  {
  }

  /** Adding a record whose id is already present changes nothing: the
      first write wins. */
  lemma AddPresentIsNoOp(m: map<Id, Record>, r: Record)
    requires r.id in m
    ensures TryAdd(m, r) == m
  {
  }

  /** The fold can be unrolled from the right: a batch followed by one more
      record is the batch, then a single insert. */
  lemma {:induction false} AddAllSnoc(m: map<Id, Record>, rs: seq<Record>, r: Record)
    ensures AddAll(m, rs + [r]) == TryAdd(AddAll(m, rs), r)
    decreases |rs|
  {
    if rs == [] {
      assert [] + [r] == [r];
      assert [r][1..] == [];
    } else {
      assert (rs + [r])[0] == rs[0];
      assert (rs + [r])[1..] == rs[1..] + [r];
      AddAllSnoc(TryAdd(m, rs[0]), rs[1..], r);
    }
  }

  /** After a batch insert, a key holds the original record if it was
      already present, and otherwise the FIRST record of the batch with that
      id: later duplicates inside the batch are absorbed. */
  lemma {:induction false} AddAllFirstWins(m: map<Id, Record>, rs: seq<Record>, k: Id)
    ensures k in AddAll(m, rs) <==> k in m || FirstWithId(rs, k).Some?
    ensures k in m ==> AddAll(m, rs)[k] == m[k]
    ensures k !in m && FirstWithId(rs, k).Some? ==> AddAll(m, rs)[k] == FirstWithId(rs, k).value
    decreases |rs|
  {
    if rs != [] {
      AddAllFirstWins(TryAdd(m, rs[0]), rs[1..], k);
    }
  }

  /** A batch of distinct ids none of which is stored grows the store by the
      batch's length, and each of its records becomes retrievable by id. */
  lemma {:induction false} AddAllDistinctFresh(m: map<Id, Record>, rs: seq<Record>)
    requires DistinctIds(rs)
    requires forall i :: 0 <= i < |rs| ==> rs[i].id !in m
    ensures |AddAll(m, rs)| == |m| + |rs|
    ensures forall i :: 0 <= i < |rs| ==> rs[i].id in AddAll(m, rs) && AddAll(m, rs)[rs[i].id] == rs[i]
    decreases |rs|
  {
    if rs != [] {
      var m1 := TryAdd(m, rs[0]);
      assert |m1| == |m| + 1 by { AddAbsentThenLookup(m, rs[0]); }
      AddAllDistinctFresh(m1, rs[1..]);
      AddAllFirstWins(m1, rs[1..], rs[0].id);
      forall i | 1 <= i < |rs|
        ensures rs[i].id in AddAll(m, rs) && AddAll(m, rs)[rs[i].id] == rs[i]
      {
        assert rs[1..][i - 1] == rs[i];
      }
    }
  }

  /** The shared store. The system keeps one static map for the whole
      process; the model has one store object, handed to the storage tier's
      controller. */
  class InMemoryRandomNumberStorage {
    var numbers: map<Id, Record>

    ghost predicate Valid()
      reads this
    {
      KeyedById(numbers)
    }

    constructor ()
      ensures Valid() && numbers == map[]
    {
      numbers := map[];
    }

    /** Inserts `r` unless its id is already stored. */
    method AddNumber(r: Record)
      requires Valid()
      modifies this
      ensures Valid()
      ensures numbers == TryAdd(old(numbers), r)
    {
      if r.id !in numbers {
        numbers := numbers[r.id := r];
      }
    }

    /** Inserts each record of the batch in order, absorbing duplicates. */
    method AddNumbers(rs: seq<Record>)
      requires Valid()
      modifies this
      ensures Valid()
      ensures numbers == AddAll(old(numbers), rs)
    {
      var i := 0;
      while i < |rs|
        invariant 0 <= i <= |rs|
        invariant numbers == AddAll(old(numbers), rs[..i])
        invariant Valid()
      {
        AddAllSnoc(old(numbers), rs[..i], rs[i]);
        assert rs[..i + 1] == rs[..i] + [rs[i]];
        AddNumber(rs[i]);
        i := i + 1;
      }
      assert rs[..i] == rs;
    }

    /** The stored record with id `id`, or none; never fails. */
    method GetNumberById(id: Id) returns (r: Option<Record>)
      requires Valid()
      ensures r.Some? <==> id in numbers
      ensures r.Some? ==> r.value == numbers[id] && r.value.id == id
    {
      if id in numbers {
        r := Some(numbers[id]);
      } else {
        r := None;
      }
    }

    /** A snapshot of every stored record, in no particular order. */
    method GetAllNumbers() returns (s: seq<Record>)
      requires Valid()
      ensures IsSnapshot(s, numbers)
    {
      s := [];
      var keys := numbers.Keys;
      while keys != {}
        invariant keys <= numbers.Keys
        invariant |s| + |keys| == |numbers|
        invariant forall x :: x in s ==> x.id in numbers && numbers[x.id] == x && x.id !in keys
        invariant forall k :: k in numbers && k !in keys ==> numbers[k] in s
        decreases keys
      {
        var k :| k in keys;
        s := s + [numbers[k]];
        keys := keys - {k};
      }
    }

    /** The number of stored records. */
    method GetCount() returns (n: nat)
      ensures n == |numbers|
    {
      n := |numbers|;
    }

    /** Empties the store, whatever it held. */
    method ClearAll()
      modifies this
      ensures Valid()
      ensures numbers == map[]
    {
      numbers := map[];
    }
  }
}
