/** Reversible insertion into a map (components/taxonomy/src/transact.rs). The map a transaction borrows
    mutably is handed over to it at the start and handed back when it is dropped. */
module Transact {
  import opened Common

  // ---------------------------------------------------------------- specification

  /** The map after inserting the pairs from left to right. */
  function Inserted<K, V>(m: map<K, V>, data: seq<(K, V)>): map<K, V> {
    if data == [] then m
    else Inserted(m, data[..|data| - 1])[data[|data| - 1].0 := data[|data| - 1].1]
  }

  /** The key of pair `i` is taken: by the map, or by an earlier pair of the batch. */
  predicate Conflict<K(==), V>(m: map<K, V>, data: seq<(K, V)>, i: nat)
    requires i < |data|
  {
    data[i].0 in m || exists j :: 0 <= j < i && data[j].0 == data[i].0
  }

  ghost predicate ConflictFree<K, V>(m: map<K, V>, data: seq<(K, V)>, n: nat)
    requires n <= |data|
  {
    forall i :: 0 <= i < n ==> !Conflict(m, data, i)
  }

  function Keys<K, V>(data: seq<(K, V)>): (keys: seq<K>)
    ensures |keys| == |data|
    ensures forall i :: 0 <= i < |keys| ==> keys[i] == data[i].0
  {
    seq(|data|, i requires 0 <= i < |data| => data[i].0)
  }

  lemma {:induction false} InsertedKeys<K, V>(m: map<K, V>, data: seq<(K, V)>)
    ensures Inserted(m, data).Keys == m.Keys + set k | k in Keys(data)
  {
    if data == [] {
      assert Keys(data) == [];
    } else {
      var n := |data| - 1;
      InsertedKeys(m, data[..n]);
      assert Keys(data) == Keys(data[..n]) + [data[n].0];
    }
  }

  /** A batch without conflicts leaves the entries that were there alone. */
  lemma {:induction false} InsertedKeepsOld<K, V>(m: map<K, V>, data: seq<(K, V)>)
    requires ConflictFree(m, data, |data|)
    ensures forall k :: k in m ==> k in Inserted(m, data) && Inserted(m, data)[k] == m[k]
    ensures forall k :: k in m ==> k !in Keys(data)
  {
    if data != [] {
      var n := |data| - 1;
      PrefixConflictFree(m, data, n);
      InsertedKeepsOld(m, data[..n]);
      assert !Conflict(m, data, n);
      forall k | k in m ensures k !in Keys(data) {
        forall i | 0 <= i < |data|
          ensures Keys(data)[i] != k
        {
          assert !Conflict(m, data, i);
        }
      }
    }
  }

  /** After a batch without conflicts the map has each of its pairs, beside what it had. */
  lemma {:induction false} InsertedHasBatch<K, V>(m: map<K, V>, data: seq<(K, V)>)
    requires ConflictFree(m, data, |data|)
    ensures Inserted(m, data).Keys == m.Keys + set k | k in Keys(data)
    ensures forall i :: 0 <= i < |data| ==> data[i].0 in Inserted(m, data) && Inserted(m, data)[data[i].0] == data[i].1
  {
    InsertedKeys(m, data);
    if data != [] {
      var n := |data| - 1;
      PrefixConflictFree(m, data, n);
      InsertedHasBatch(m, data[..n]);
      assert !Conflict(m, data, n);
      forall i | 0 <= i < n
        ensures data[i].0 != data[n].0 && data[..n][i] == data[i]
      {
      }
    }
  }

  /** Removing what was inserted restores the map. */
  lemma RollbackRestores<K, V>(m: map<K, V>, data: seq<(K, V)>)
    requires ConflictFree(m, data, |data|)
    ensures Inserted(m, data) - (set k | k in Keys(data)) == m
  {
    InsertedKeys(m, data);
    InsertedKeepsOld(m, data);
    var back := Inserted(m, data) - (set k | k in Keys(data));
    assert back.Keys == m.Keys;
  }

  // ---------------------------------------------------------------- the transaction

  class InsertInMap<K(==), V> {
    var content: map<K, V>
    var keys: seq<K>
    var committed: bool
    ghost const original: map<K, V>
    ghost const data: seq<(K, V)>

    ghost predicate Valid()
      reads this
    {
      && content == Inserted(original, data)
      && keys == Keys(data)
      && ConflictFree(original, data, |data|)
    }

    constructor (content: map<K, V>, keys: seq<K>, ghost original: map<K, V>, ghost data: seq<(K, V)>)
      requires content == Inserted(original, data) && keys == Keys(data)
      requires ConflictFree(original, data, |data|)
      ensures Valid() && !committed && this.original == original && this.data == data
    {
      this.content := content;
      this.keys := keys;
      this.committed := false;
      this.original := original;
      this.data := data;
    }

    /** Insert the pairs without overwriting. On the first conflict everything inserted so far is taken
        out again and its key is reported; the map then is as before. */
    static method Start(m: map<K, V>, data: seq<(K, V)>) returns (r: Result<InsertInMap<K, V>, K>, back: map<K, V>)
      ensures r.Ok? <==> ConflictFree(m, data, |data|)
      ensures r.Ok? ==> fresh(r.value) && r.value.Valid() && !r.value.committed
                        && r.value.original == m && r.value.data == data
      ensures r.Err? ==> back == m
      ensures r.Err? ==> exists i :: 0 <= i < |data| && r.error == data[i].0
                                     && Conflict(m, data, i) && ConflictFree(m, data, i)
    {
      var content, keys := m, [];
      var conflict: Option<K> := None;
      var i := 0;
      while i < |data|
        invariant 0 <= i <= |data|
        invariant conflict == None
        invariant ConflictFree(m, data, i) && keys == Keys(data[..i])
        invariant content == Inserted(m, data[..i])
      {
        var (k, v) := data[i];
        InsertedKeys(m, data[..i]);
        ConflictMeansTaken(m, data, i);
        if k in content {
          conflict := Some(k);
          break;
        }
        content := content[k := v];
        keys := keys + [k];
        assert data[..i + 1][..i] == data[..i];
        i := i + 1;
      }
      if conflict == None {
        assert data[..i] == data;
        var t := new InsertInMap(content, keys, m, data);
        return Ok(t), content;
      }
      ghost var done := data[..i];
      PrefixConflictFree(m, data, i);
      RollbackRestores(m, done);
      back := Remove(content, keys);
      return Err(conflict.value), back;
    }

    method Commit()
      modifies this
      ensures committed && content == old(content) && keys == old(keys)
    {
      committed := true;
    }

    /** End of the borrow: an uncommitted transaction takes its insertions out again. */
    method Drop() returns (m: map<K, V>)
      requires Valid()
      modifies this
      ensures m == if old(committed) then Inserted(original, data) else original
    {
      if committed {
        return content;
      }
      RollbackRestores(original, data);
      m := Remove(content, keys);
      keys := [];
      content := m;
    }
  }

  /** What the transaction comes to for a single pair. */
  lemma SinglePair<K, V>(m: map<K, V>, k: K, v: V)
    ensures Inserted(m, [(k, v)]) == m[k := v]
    ensures ConflictFree(m, [(k, v)], 1) <==> k !in m
  {
    var data := [(k, v)];
    assert data[..0] == [];
    assert Conflict(m, data, 0) <==> k in m;
  }

  method Remove<K(==), V>(m: map<K, V>, keys: seq<K>) returns (r: map<K, V>)
    ensures r == m - (set k | k in keys)
  {
    r := m;
    for i := 0 to |keys|
      invariant r == m - (set k | k in keys[..i])
    {
      assert keys[..i + 1] == keys[..i] + [keys[i]];
      r := r - {keys[i]};
    }
    assert keys[..|keys|] == keys;
  }

  lemma ConflictMeansTaken<K, V>(m: map<K, V>, data: seq<(K, V)>, i: nat)
    requires i < |data|
    ensures Conflict(m, data, i) <==> data[i].0 in m || data[i].0 in Keys(data[..i])
  {
  }

  lemma PrefixConflictFree<K, V>(m: map<K, V>, data: seq<(K, V)>, n: nat)
    requires n <= |data| && ConflictFree(m, data, n)
    ensures ConflictFree(m, data[..n], n)
  {
    forall i | 0 <= i < n ensures !Conflict(m, data[..n], i) {
      assert !Conflict(m, data, i);
      assert forall j :: 0 <= j <= i ==> data[..n][j] == data[j];
    }
  }
}
