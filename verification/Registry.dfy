/** The identity registry: an ordered vector of records, kept sorted by creation time and key. */
module Registry {
  import opened Domain

  type Records = seq<Identity>

  function Keys(records: Records): set<PublicKey> {
    set i | 0 <= i < |records| :: records[i].key
  }

  ghost predicate Unique(records: Records) {
    forall i, j :: 0 <= i < j < |records| ==> records[i].key != records[j].key
  }

  /** The order of `sort_by_key(|saved| (created_at, public_key))`. */
  predicate NotAfter(a: Identity, b: Identity) {
    a.createdAt < b.createdAt || (a.createdAt == b.createdAt && a.key <= b.key)
  }

  ghost predicate Ordered(records: Records) {
    forall i, j :: 0 <= i < j < |records| ==> NotAfter(records[i], records[j])
  }

  function Find(records: Records, key: PublicKey): Option<Identity> {
    if records == [] then None
    else if records[0].key == key then Some(records[0])
    else Find(records[1..], key)
  }

  predicate Has(records: Records, key: PublicKey) {
    Find(records, key).Some?
  }

  /** Puts `record` after every record that is not after it, as a stable sort does with a pushed record. */
  function Place(records: Records, record: Identity): Records {
    if records == [] then [record]
    else
      var last := |records| - 1;
      if NotAfter(records[last], record) then records + [record]
      else Place(records[..last], record) + [records[last]]
  }

  function SortByCreation(records: Records): Records {
    if records == [] then []
    else
      var last := |records| - 1;
      Place(SortByCreation(records[..last]), records[last])
  }

  /** Push and sort. */
  function Insert(records: Records, record: Identity): Records {
    SortByCreation(records + [record])
  }

  /** Overwrites the first record with the same key. */
  function Update(records: Records, record: Identity): Records {
    if records == [] then []
    else if records[0].key == record.key then [record] + records[1..]
    else [records[0]] + Update(records[1..], record)
  }

  function Remove(records: Records, key: PublicKey): Records {
    if records == [] then []
    else if records[0].key == key then Remove(records[1..], key)
    else [records[0]] + Remove(records[1..], key)
  }

  // ---- Lookup ----

  lemma {:induction false} FindSound(records: Records, key: PublicKey)
    ensures Has(records, key) <==> key in Keys(records)
    ensures Has(records, key) ==>
              Find(records, key).value in records && Find(records, key).value.key == key
  {
    if records != [] {
      assert records == [records[0]] + records[1..];
      FindSound(records[1..], key);
      ConsKeys(records);
    }
  }

  lemma FindUnique(records: Records, record: Identity)
    requires Unique(records) && record in records
    ensures Find(records, record.key) == Some(record)
  {}

  /** With unique keys, two registries holding the same records answer every lookup alike. */
  lemma SameLookup(before: Records, after: Records, key: PublicKey)
    requires Unique(before) && Unique(after)
    requires forall r: Identity :: r.key == key ==> (r in before <==> r in after)
    ensures Find(before, key) == Find(after, key)
  {}

  // ---- Insertion ----

  lemma {:induction false} PlaceCounts(records: Records, record: Identity)
    ensures |Place(records, record)| == |records| + 1
    ensures multiset(Place(records, record)) == multiset(records) + multiset{record}
  {
    if records != [] {
      var last := |records| - 1;
      assert records == records[..last] + [records[last]];
      PlaceCounts(records[..last], record);
    }
  }

  lemma PlaceMember(records: Records, record: Identity, r: Identity)
    ensures r in Place(records, record) <==> r in records || r == record
  {}

  lemma {:induction false} PlaceOrdered(records: Records, record: Identity)
    requires Ordered(records)
    ensures Ordered(Place(records, record))
  {
    if records != [] {
      var last := |records| - 1;
      if !NotAfter(records[last], record) {
        var front := Place(records[..last], record);
        PlaceOrdered(records[..last], record);
        forall i | 0 <= i < |front| ensures NotAfter(front[i], records[last]) {
          PlaceMember(records[..last], record, front[i]);
          hide Place;
          if front[i] != record {
            var k :| 0 <= k < last && records[..last][k] == front[i];
            assert NotAfter(records[k], records[last]);
          }
        }
      }
    }
  }

  /** Sorting yields an ordered permutation, and leaves an ordered registry alone. */
  lemma {:induction false} SortSound(records: Records)
    ensures Ordered(SortByCreation(records))
    ensures multiset(SortByCreation(records)) == multiset(records)
    ensures Ordered(records) ==> SortByCreation(records) == records
  {
    if records != [] {
      var last := |records| - 1;
      assert records == records[..last] + [records[last]];
      SortSound(records[..last]);
      PlaceCounts(SortByCreation(records[..last]), records[last]);
      PlaceOrdered(SortByCreation(records[..last]), records[last]);
      if Ordered(records) {
        assert Ordered(records[..last]);
        if last > 0 { assert NotAfter(records[last - 1], records[last]); }
      }
    }
  }

  lemma {:induction false} PlaceUnique(records: Records, record: Identity)
    requires Unique(records) && record.key !in Keys(records)
    ensures Unique(Place(records, record))
  {
    forall i | 0 <= i < |records| ensures records[i].key != record.key { assert records[i].key in Keys(records); }
    if records != [] && !NotAfter(records[|records| - 1], record) {
      var last := |records| - 1;
      var front := Place(records[..last], record);
      assert forall i :: 0 <= i < last ==> records[..last][i] == records[i];
      PlaceUnique(records[..last], record);
      forall i | 0 <= i < |front| ensures front[i].key != records[last].key {
        PlaceMember(records[..last], record, front[i]);
        hide Place; hide Keys;
        if front[i] != record {
          var k :| 0 <= k < last && records[..last][k] == front[i];
          assert records[k].key != records[last].key;
        }
      }
    }
  }

  /** Inserting a new key keeps order and uniqueness and adds exactly that record. */
  lemma InsertSound(records: Records, record: Identity)
    requires Ordered(records) && Unique(records) && record.key !in Keys(records)
    ensures Ordered(Insert(records, record)) && Unique(Insert(records, record))
    ensures forall r: Identity :: r in Insert(records, record) <==> r in records || r == record
    ensures Keys(Insert(records, record)) == Keys(records) + {record.key}
  {
    var pushed := records + [record];
    assert pushed[..|records|] == records;
    SortSound(records);
    assert Insert(records, record) == Place(records, record);
    PlaceOrdered(records, record);
    PlaceUnique(records, record);
    forall r: Identity ensures r in Insert(records, record) <==> r in records || r == record {
      PlaceMember(records, record, r);
    }
    SameKeys(Insert(records, record), pushed);
    PushedKeys(records, record);
  }

  lemma PushedKeys(records: Records, record: Identity)
    ensures Keys(records + [record]) == Keys(records) + {record.key}
  {
    var pushed := records + [record];
    forall k ensures k in Keys(pushed) <==> k in Keys(records) + {record.key} {
      if k in Keys(records) {
        var i :| 0 <= i < |records| && records[i].key == k;
        assert pushed[i].key == k;
      }
      if k == record.key { assert pushed[|records|].key == k; }
    }
  }

  lemma InsertLookup(records: Records, record: Identity)
    requires Ordered(records) && Unique(records) && record.key !in Keys(records)
    ensures Find(Insert(records, record), record.key) == Some(record)
    ensures forall k :: k != record.key ==> Find(Insert(records, record), k) == Find(records, k)
  {
    InsertSound(records, record);
    FindUnique(Insert(records, record), record);
    forall k | k != record.key ensures Find(Insert(records, record), k) == Find(records, k) {
      SameLookup(Insert(records, record), records, k);
    }
  }

  /** The inserted record is found under its new key, whatever else the registry holds. */
  lemma InsertFound(records: Records, record: Identity)
    requires !Has(records, record.key)
    ensures Find(Insert(records, record), record.key) == Some(record)
  {
    var pushed, inserted := records + [record], Insert(records, record);
    SortSound(pushed);
    FindSound(records, record.key);
    FindSound(inserted, record.key);
    hide Find; hide SortByCreation;
    assert record in multiset(pushed) && record in multiset(inserted);
    var i :| 0 <= i < |inserted| && inserted[i] == record;
    assert inserted[i].key in Keys(inserted);
    var found := Find(inserted, record.key).value;
    assert found in multiset(inserted) && found in multiset(pushed);
    forall j | 0 <= j < |records| ensures records[j] != found { assert records[j].key in Keys(records); }
  }

  lemma SameKeys(a: Records, b: Records)
    requires forall r: Identity :: r in a <==> r in b
    ensures Keys(a) == Keys(b)
  {
    forall k ensures k in Keys(a) <==> k in Keys(b) {
      if k in Keys(a) {
        var i :| 0 <= i < |a| && a[i].key == k;
        assert a[i] in b;
      }
      if k in Keys(b) {
        var i :| 0 <= i < |b| && b[i].key == k;
        assert b[i] in a;
      }
    }
  }

  // ---- Update and removal ----

  /** An update of a registered key changes that record and nothing else, in place. */
  lemma {:induction false} UpdateSound(records: Records, record: Identity)
    requires Unique(records) && record.key in Keys(records)
    ensures |Update(records, record)| == |records|
    ensures forall i :: 0 <= i < |records| ==>
                          Update(records, record)[i] == if records[i].key == record.key then record else records[i]
    ensures Unique(Update(records, record)) && Keys(Update(records, record)) == Keys(records)
  {
    assert records == [records[0]] + records[1..];
    if records[0].key == record.key {
      var updated := [record] + records[1..];
      assert forall i :: 0 <= i < |records| ==> updated[i].key == records[i].key;
    } else {
      ConsKeys(records);
      UpdateSound(records[1..], record);
      var updated := [records[0]] + Update(records[1..], record);
      assert forall i :: 0 <= i < |records| ==> updated[i].key == records[i].key;
    }
    var updated := Update(records, record);
    assert forall i :: 0 <= i < |records| ==> updated[i].key == records[i].key;
    assert Keys(updated) == Keys(records);
  }

  lemma UpdateLookup(records: Records, record: Identity)
    requires Unique(records) && record.key in Keys(records)
    ensures Find(Update(records, record), record.key) == Some(record)
    ensures forall k :: k != record.key ==> Find(Update(records, record), k) == Find(records, k)
  {}

  /** The updated key is found as written, whatever else the registry holds. */
  lemma {:induction false} UpdateFound(records: Records, record: Identity)
    requires Has(records, record.key)
    ensures Find(Update(records, record), record.key) == Some(record)
  {
    if records[0].key != record.key { UpdateFound(records[1..], record); }
  }

  /** Updating keeps the order when the creation time stays, and rewriting a record as it is changes nothing. */
  lemma UpdateOrdered(records: Records, record: Identity, found: Identity)
    requires Unique(records) && Find(records, record.key) == Some(found)
    ensures Ordered(records) && found.createdAt == record.createdAt ==> Ordered(Update(records, record))
    ensures found == record ==> Update(records, record) == records
  {
    FindSound(records, record.key);
    UpdateSound(records, record);
    forall i | 0 <= i < |records| && records[i].key == record.key ensures records[i] == found {
      FindUnique(records, records[i]);
    }
    if found == record {
      var updated := Update(records, record);
      assert forall i :: 0 <= i < |records| ==> updated[i] == records[i];
    }
  }

  lemma {:induction false} RemoveMembers(records: Records, key: PublicKey)
    ensures forall r: Identity :: r in Remove(records, key) <==> r in records && r.key != key
  {
    if records != [] {
      assert records == [records[0]] + records[1..];
      RemoveMembers(records[1..], key);
    }
  }

  /** Removal keeps the order and the distinctness of the rest. */
  lemma {:induction false} RemoveSound(records: Records, key: PublicKey)
    ensures Unique(records) ==> Unique(Remove(records, key))
    ensures Ordered(records) ==> Ordered(Remove(records, key))
  {
    if records != [] {
      var tail, kept := records[1..], Remove(records[1..], key);
      RemoveSound(tail, key);
      forall i | 0 <= i < |kept|
        ensures Unique(records) ==> records[0].key != kept[i].key
        ensures Ordered(records) ==> NotAfter(records[0], kept[i])
      {
        RemoveLater(records, key, i);
      }
    }
  }

  lemma RemoveLater(records: Records, key: PublicKey, i: nat)
    requires records != [] && i < |Remove(records[1..], key)|
    ensures exists j :: 0 < j < |records| && records[j] == Remove(records[1..], key)[i]
  {
    RemoveMembers(records[1..], key);
    var kept := Remove(records[1..], key)[i];
    hide Remove;
    assert kept in records[1..];
    var j :| 0 <= j < |records[1..]| && records[1..][j] == kept;
    assert records[j + 1] == kept;
  }

  lemma ConsKeys(records: Records)
    requires records != []
    ensures Keys(records) == {records[0].key} + Keys(records[1..])
  {}

  lemma RemoveLookup(records: Records, key: PublicKey)
    requires Unique(records)
    ensures !Has(Remove(records, key), key)
    ensures forall k :: k != key ==> Find(Remove(records, key), k) == Find(records, k)
    ensures key !in Keys(records) ==> Remove(records, key) == records
  {}

  lemma {:induction false} RemoveAbsent(records: Records, key: PublicKey)
    requires key !in Keys(records)
    ensures Remove(records, key) == records
  {
    if records != [] {
      assert records == [records[0]] + records[1..];
      ConsKeys(records);
      RemoveAbsent(records[1..], key);
    }
  }
}
