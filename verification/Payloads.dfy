/** Aggregated payloads: the bounded buffers, and the latest vote per validator read from them. */
module Payloads {
  import opened Types
  import opened ForkChoice

  const AGGREGATED_PAYLOAD_CAP: nat := 4096
  const NEW_PAYLOAD_CAP: nat := 512

  datatype SignatureKey = SignatureKey(validator: ValidatorIndex, dataRoot: Root)

  /** A stored proof: the slot it speaks for, and the validators it covers. */
  datatype Payload = Payload(slot: Slot, participants: seq<bool>)

  datatype Entry = Entry(key: SignatureKey, payload: Payload)

  // The buffer

  /** Insert one entry, dropping the oldest at capacity. */
  function Push(entries: seq<Entry>, capacity: nat, e: Entry): seq<Entry> {
    (if |entries| >= capacity && entries != [] then entries[1..] else entries) + [e]
  }

  function Newest(entries: seq<Entry>, n: nat): seq<Entry> {
    if |entries| <= n then entries else entries[|entries| - n..]
  }

  /** A full buffer holds `capacity` entries; with capacity zero the last push still stays. */
  function Room(capacity: nat): nat { if capacity == 0 then 1 else capacity }

  /** After any batch the buffer holds the newest entries of everything pushed so far. */
  method PushBatch(entries: seq<Entry>, capacity: nat, batch: seq<Entry>) returns (out: seq<Entry>)
    requires |entries| <= Room(capacity)
    ensures out == Newest(entries + batch, Room(capacity))
  {
    out := entries;
    for i := 0 to |batch|
      invariant out == Newest(entries + batch[..i], Room(capacity))
    {
      PushKeepsNewest(entries + batch[..i], capacity, batch[i]);
      assert entries + batch[..i] + [batch[i]] == entries + batch[..i + 1];
      out := Push(out, capacity, batch[i]);
    }
    assert batch[..|batch|] == batch;
  }

  lemma PushKeepsNewest(all: seq<Entry>, capacity: nat, e: Entry)
    ensures Push(Newest(all, Room(capacity)), capacity, e) == Newest(all + [e], Room(capacity))
  {
  }

  function Keys(entries: seq<Entry>): set<SignatureKey> {
    set e | e in entries :: e.key
  }

  // The latest vote of each validator

  ghost predicate Available(keys: set<SignatureKey>, data: map<Root, AttestationData>, v: ValidatorIndex,
                            d: AttestationData) {
    exists r :: SignatureKey(v, r) in keys && r in data && data[r] == d
  }

  /** `votes` gives every validator with available data one of its votes of the highest slot. */
  ghost predicate IsLatest(keys: set<SignatureKey>, data: map<Root, AttestationData>, votes: Votes) {
    && (forall v :: v in votes ==> Available(keys, data, v, votes[v]))
    && (forall k :: k in keys && k.dataRoot in data ==>
          k.validator in votes && data[k.dataRoot].slot <= votes[k.validator].slot)
  }

  lemma LatestStep(keys: set<SignatureKey>, data: map<Root, AttestationData>, votes: Votes, k: SignatureKey)
    requires IsLatest(keys, data, votes)
    ensures IsLatest(keys + {k}, data, WithKey(data, votes, k))
  {
  }

  /** The vote map after one more key: a strictly later slot replaces what is there. */
  function WithKey(data: map<Root, AttestationData>, votes: Votes, k: SignatureKey): Votes {
    if k.dataRoot in data && (k.validator in votes ==> votes[k.validator].slot < data[k.dataRoot].slot)
    then votes[k.validator := data[k.dataRoot]]
    else votes
  }

  /** The loop of the extraction: the vote map after visiting `order` from the front. */
  function Visit(order: seq<SignatureKey>, data: map<Root, AttestationData>): Votes {
    if order == [] then map[]
    else WithKey(data, Visit(order[..|order| - 1], data), order[|order| - 1])
  }

  lemma OrderGrows(keys: set<SignatureKey>, order: seq<SignatureKey>, data: map<Root, AttestationData>, k: SignatureKey)
    requires IsOrder(keys, order) && k !in keys
    ensures IsOrder(keys + {k}, order + [k])
    ensures Visit(order + [k], data) == WithKey(data, Visit(order, data), k)
  {
    assert (order + [k])[..|order|] == order;
  }

  method ExtractLatest(keys: set<SignatureKey>, data: map<Root, AttestationData>) returns (votes: Votes)
    ensures exists order :: IsOrder(keys, order) && votes == Visit(order, data)
    ensures IsLatest(keys, data, votes)
  {
    votes := map[];
    var rest := keys;
    ghost var order: seq<SignatureKey> := [];
    while rest != {}
      invariant rest <= keys
      invariant IsOrder(keys - rest, order) && votes == Visit(order, data)
    {
      var k :| k in rest;
      OrderGrows(keys - rest, order, data, k);
      assert keys - (rest - {k}) == keys - rest + {k};
      votes := WithKey(data, votes, k);
      rest, order := rest - {k}, order + [k];
    }
    assert keys - {} == keys;
    VisitIsLatest(keys, order, data);
  }

  /** Whatever the order, the loop returns one of each validator's votes of the highest slot. */
  lemma {:induction false} VisitIsLatest(keys: set<SignatureKey>, order: seq<SignatureKey>,
                                         data: map<Root, AttestationData>)
    requires IsOrder(keys, order)
    ensures IsLatest(keys, data, Visit(order, data))
  {
    if order != [] {
      var front, k := order[..|order| - 1], order[|order| - 1];
      assert order == front + [k];
      VisitIsLatest(keys - {k}, front, data);
      LatestStep(keys - {k}, data, Visit(front, data), k);
      assert keys - {k} + {k} == keys;
    }
  }

  /** One possible extraction. */
  ghost function Latest(keys: set<SignatureKey>, data: map<Root, AttestationData>): (votes: Votes)
    ensures IsLatest(keys, data, votes)
  {
    assert exists votes :: IsLatest(keys, data, votes) by {
      var order := HasOrder(keys);
      VisitIsLatest(keys, order, data);
    }
    var votes :| IsLatest(keys, data, votes);
    votes
  }

  // When the answer is determined

  /** `k` is a vote of the highest slot available for its validator. */
  ghost predicate IsTop(keys: set<SignatureKey>, data: map<Root, AttestationData>, k: SignatureKey) {
    && k in keys && k.dataRoot in data
    && forall l :: l in keys && l.validator == k.validator && l.dataRoot in data ==>
         data[l.dataRoot].slot <= data[k.dataRoot].slot
  }

  /** No validator has two different votes of its highest slot; ties further down do not matter. */
  ghost predicate NoTopTies(keys: set<SignatureKey>, data: map<Root, AttestationData>) {
    forall k, l :: IsTop(keys, data, k) && IsTop(keys, data, l) && k.validator == l.validator ==>
      data[k.dataRoot] == data[l.dataRoot]
  }

  lemma LatestUnique(keys: set<SignatureKey>, data: map<Root, AttestationData>, a: Votes, b: Votes)
    requires NoTopTies(keys, data) && IsLatest(keys, data, a) && IsLatest(keys, data, b)
    ensures a == b
  {
    forall v | v in a ensures v in b && a[v] == b[v] {
      var r :| SignatureKey(v, r) in keys && r in data && data[r] == a[v];
      var q :| SignatureKey(v, q) in keys && q in data && data[q] == b[v];
      assert IsTop(keys, data, SignatureKey(v, r)) && IsTop(keys, data, SignatureKey(v, q));
    }
  }

  /** The first key visited decides, if it is of the highest slot. */
  lemma {:induction false} FirstTopWins(keys: set<SignatureKey>, order: seq<SignatureKey>,
                                        data: map<Root, AttestationData>)
    requires order != [] && (forall k :: k in order ==> k in keys) && IsTop(keys, data, order[0])
    ensures order[0].validator in Visit(order, data)
    ensures Visit(order, data)[order[0].validator] == data[order[0].dataRoot]
  {
    if |order| > 1 {
      FirstTopWins(keys, order[..|order| - 1], data);
    } else {
      assert Visit(order[..0], data) == map[];
    }
  }

  lemma OrderStartingWith(keys: set<SignatureKey>, k: SignatureKey) returns (order: seq<SignatureKey>)
    requires k in keys
    ensures IsOrder(keys, order) && order[0] == k
  {
    var rest := HasOrder(keys - {k});
    order := [k] + rest;
  }

  ghost predicate OrderIrrelevant(keys: set<SignatureKey>, data: map<Root, AttestationData>) {
    forall p, q :: IsOrder(keys, p) && IsOrder(keys, q) ==> Visit(p, data) == Visit(q, data)
  }

  /** The extraction does not depend on the visiting order exactly when no validator has two different
      votes of its highest slot. */
  lemma OrderIrrelevantIffNoTopTies(keys: set<SignatureKey>, data: map<Root, AttestationData>)
    ensures OrderIrrelevant(keys, data) <==> NoTopTies(keys, data)
  {
    if NoTopTies(keys, data) {
      forall p, q | IsOrder(keys, p) && IsOrder(keys, q) ensures Visit(p, data) == Visit(q, data) {
        VisitIsLatest(keys, p, data);
        VisitIsLatest(keys, q, data);
        LatestUnique(keys, data, Visit(p, data), Visit(q, data));
      }
    }
    if OrderIrrelevant(keys, data) {
      forall k, l | IsTop(keys, data, k) && IsTop(keys, data, l) && k.validator == l.validator
        ensures data[k.dataRoot] == data[l.dataRoot]
      {
        var p := OrderStartingWith(keys, k);
        var q := OrderStartingWith(keys, l);
        FirstTopWins(keys, p, data);
        FirstTopWins(keys, q, data);
      }
    }
  }

  /** Two orders of one two-vote table that return the two answers. */
  lemma TiesAreAmbiguous(v: ValidatorIndex, r: Root, q: Root, d: AttestationData, e: AttestationData)
    requires r != q && d.slot == e.slot
    ensures var k, l, data := SignatureKey(v, r), SignatureKey(v, q), map[r := d, q := e];
            && IsOrder({k, l}, [k, l]) && Visit([k, l], data) == map[v := d]
            && IsOrder({k, l}, [l, k]) && Visit([l, k], data) == map[v := e]
  {
    var k, l, data := SignatureKey(v, r), SignatureKey(v, q), map[r := d, q := e];
    assert [k, l][..1] == [k] && [l, k][..1] == [l];
    assert Visit([k][..0], data) == map[] && Visit([l][..0], data) == map[];
    assert Visit([k], data) == WithKey(data, map[], k) && Visit([l], data) == WithKey(data, map[], l);
    assert Visit([k], data) == map[v := d] && Visit([l], data) == map[v := e];
  }

  // `IsLatest` is not looser than the loop: each map it admits comes out of some order.

  /** `k` can be visited last: the map is already right without it, or it alone decides its validator. */
  ghost predicate CanComeLast(keys: set<SignatureKey>, data: map<Root, AttestationData>, votes: Votes,
                              k: SignatureKey) {
    || IsLatest(keys - {k}, data, votes)
    || (k.validator in votes && IsLatest(keys - {k}, data, votes - {k.validator}) && k.dataRoot in data
        && votes[k.validator] == data[k.dataRoot])
  }

  lemma SomeCanComeLast(keys: set<SignatureKey>, data: map<Root, AttestationData>, votes: Votes)
    returns (k: SignatureKey)
    requires IsLatest(keys, data, votes) && keys != {}
    ensures k in keys && CanComeLast(keys, data, votes, k)
  {
    k :| k in keys;
    if l :| l in keys && l != k && l.validator == k.validator && k.dataRoot in data
            && data[k.dataRoot] == votes[k.validator] && l.dataRoot in data && data[l.dataRoot] != votes[k.validator] {
      OthersStay(keys, data, votes, l);
      k := l;
    } else if k.dataRoot !in data || data[k.dataRoot] != votes[k.validator] {
      OthersStay(keys, data, votes, k);
    } else if l :| l in keys && l != k && l.validator == k.validator && l.dataRoot in data {
      forall v | v in votes ensures Available(keys - {k}, data, v, votes[v]) {
        var r :| SignatureKey(v, r) in keys && r in data && data[r] == votes[v];
        assert SignatureKey(v, if v == k.validator then l.dataRoot else r) in keys - {k};
      }
    } else {
      forall v | v in votes - {k.validator} ensures Available(keys - {k}, data, v, votes[v]) {
        var r :| SignatureKey(v, r) in keys && r in data && data[r] == votes[v];
        assert SignatureKey(v, r) in keys - {k};
      }
    }
  }

  lemma OthersStay(keys: set<SignatureKey>, data: map<Root, AttestationData>, votes: Votes, k: SignatureKey)
    requires IsLatest(keys, data, votes) && k in keys
    requires k.dataRoot !in data || data[k.dataRoot] != votes[k.validator]
    ensures IsLatest(keys - {k}, data, votes)
  {
    forall v | v in votes ensures Available(keys - {k}, data, v, votes[v]) {
      var r :| SignatureKey(v, r) in keys && r in data && data[r] == votes[v];
      assert SignatureKey(v, r) in keys - {k};
    }
  }

  /** The maps that give every validator one of its votes of the highest slot are exactly those the loop
      returns for some visiting order. */
  lemma LatestIffVisited(keys: set<SignatureKey>, data: map<Root, AttestationData>, votes: Votes)
    ensures IsLatest(keys, data, votes) <==> exists order :: IsOrder(keys, order) && Visit(order, data) == votes
  {
    if IsLatest(keys, data, votes) {
      var order := OrderFor(keys, data, votes);
    }
    if order :| IsOrder(keys, order) && Visit(order, data) == votes {
      VisitIsLatest(keys, order, data);
    }
  }

  lemma {:induction false} OrderFor(keys: set<SignatureKey>, data: map<Root, AttestationData>, votes: Votes)
    returns (order: seq<SignatureKey>)
    requires IsLatest(keys, data, votes)
    ensures IsOrder(keys, order) && Visit(order, data) == votes
  {
    order := [];
    if keys != {} {
      var k := SomeCanComeLast(keys, data, votes);
      var before := if IsLatest(keys - {k}, data, votes) then votes else votes - {k.validator};
      order := OrderFor(keys - {k}, data, before);
      OrderGrows(keys - {k}, order, data, k);
      assert keys - {k} + {k} == keys;
      order := order + [k];
    }
  }
}
