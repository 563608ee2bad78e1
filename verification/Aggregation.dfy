/** The aggregation interval: single gossiped signatures become aggregated proofs, one per vote. */
module Aggregation {
  import opened Types
  import opened Payloads
  import opened Store
  import opened ProofSelection

  /** A stored single signature, and whether its bytes decode. */
  datatype GossipSignature = GossipSignature(key: SignatureKey, decodes: bool)

  /** The answers of the signature library: which public keys decode, for which votes aggregation succeeds. */
  datatype Answers = Answers(keyDecodes: nat -> bool, aggregates: Root -> bool)

  /** What the aggregation works on: the head's validators, the vote data by root, the stored signatures. */
  datatype Pool = Pool(validators: seq<Validator>, data: map<Root, AttestationData>, signatures: seq<GossipSignature>,
                       answers: Answers)

  predicate Registered(pool: Pool, v: ValidatorIndex) {
    v < |pool.validators| && pool.answers.keyDecodes(pool.validators[v].pubkey)
  }

  /** The signature under `key` goes into an aggregate. */
  ghost predicate Contributes(pool: Pool, key: SignatureKey) {
    && GossipSignature(key, true) in pool.signatures
    && Registered(pool, key.validator)
    && key.dataRoot in pool.data && pool.answers.aggregates(key.dataRoot)
  }

  /** An entry of an aggregate: its proof names exactly the validators that contribute to this vote. */
  ghost predicate EntryOf(pool: Pool, e: Entry) {
    && Contributes(pool, e.key) && e.payload.slot == pool.data[e.key.dataRoot].slot
    && forall v :: Bit(e.payload.participants, v) <==> Contributes(pool, SignatureKey(v, e.key.dataRoot))
  }

  /** One entry, or more, for every contributing signature, and no other. */
  ghost predicate AggregatesOf(pool: Pool, entries: seq<Entry>) {
    && (forall e :: e in entries ==> EntryOf(pool, e))
    && (forall key :: Contributes(pool, key) ==> key in Keys(entries))
  }

  // Grouping by vote

  ghost predicate IsGrouped(signatures: seq<GossipSignature>, groups: map<Root, seq<ValidatorIndex>>) {
    forall root, v :: (root in groups && v in groups[root]) <==>
        GossipSignature(SignatureKey(v, root), true) in signatures
  }

  method GroupSignatures(signatures: seq<GossipSignature>) returns (groups: map<Root, seq<ValidatorIndex>>)
    ensures IsGrouped(signatures, groups)
  {
    groups := map[];
    for i := 0 to |signatures|
      invariant IsGrouped(signatures[..i], groups)
    {
      var s := signatures[i];
      assert signatures[..i + 1] == signatures[..i] + [s];
      if s.decodes {
        var root := s.key.dataRoot;
        groups := groups[root := (if root in groups then groups[root] else []) + [s.key.validator]];
      }
    }
    assert signatures[..|signatures|] == signatures;
  }

  /** The members of a group whose public key is known and decodes. */
  method KnownSigners(pool: Pool, group: seq<ValidatorIndex>) returns (ids: seq<ValidatorIndex>)
    ensures forall v :: v in ids <==> v in group && Registered(pool, v)
  {
    ids := [];
    for i := 0 to |group|
      invariant forall v :: v in ids <==> v in group[..i] && Registered(pool, v)
    {
      assert group[..i + 1] == group[..i] + [group[i]];
      if group[i] < |pool.validators| && pool.answers.keyDecodes(pool.validators[group[i]].pubkey) {
        ids := ids + [group[i]];
      }
    }
    assert group[..|group|] == group;
  }

  // Aggregating

  /** The votes in `done` were worked through. */
  ghost predicate PartlyDone(pool: Pool, done: set<Root>, entries: seq<Entry>) {
    && (forall e :: e in entries ==> EntryOf(pool, e))
    && (forall key :: Contributes(pool, key) && key.dataRoot in done ==> key in Keys(entries))
  }

  /** The entries of one aggregate, one per signer. */
  function EntriesFor(ids: seq<ValidatorIndex>, root: Root, payload: Payload): seq<Entry> {
    seq(|ids|, i requires 0 <= i < |ids| => Entry(SignatureKey(ids[i], root), payload))
  }

  lemma OneAggregate(pool: Pool, done: set<Root>, entries: seq<Entry>, root: Root, ids: seq<ValidatorIndex>,
                     payload: Payload)
    requires PartlyDone(pool, done, entries) && root in pool.data && pool.answers.aggregates(root)
    requires forall v :: v in ids <==> Contributes(pool, SignatureKey(v, root))
    requires payload.slot == pool.data[root].slot && forall v :: Bit(payload.participants, v) <==> v in ids
    ensures PartlyDone(pool, done + {root}, entries + EntriesFor(ids, root, payload))
  {
    var added := EntriesFor(ids, root, payload);
    KeysOfConcat(entries, added);
    forall e | e in added ensures EntryOf(pool, e) {
      var i :| 0 <= i < |ids| && e == added[i];
      assert ids[i] in ids;
    }
    forall key | Contributes(pool, key) && key.dataRoot == root ensures key in Keys(added) {
      var i :| 0 <= i < |ids| && ids[i] == key.validator;
      assert added[i].key == key && added[i] in added;
    }
  }

  lemma NoAggregate(pool: Pool, done: set<Root>, entries: seq<Entry>, root: Root)
    requires PartlyDone(pool, done, entries) && forall v :: !Contributes(pool, SignatureKey(v, root))
    ensures PartlyDone(pool, done + {root}, entries)
  {
    forall key | Contributes(pool, key) && key.dataRoot in done + {root} ensures key in Keys(entries) {
      assert key == SignatureKey(key.validator, key.dataRoot);
    }
  }

  /** One vote: skipped if its data is gone, nobody known signed it or aggregation fails. */
  method AggregateVote(pool: Pool, groups: map<Root, seq<ValidatorIndex>>, ghost done: set<Root>, entries: seq<Entry>,
                       root: Root)
    returns (more: seq<Entry>)
    requires |pool.validators| <= VALIDATOR_REGISTRY_LIMIT && IsGrouped(pool.signatures, groups) && root in groups
    requires PartlyDone(pool, done, entries)
    ensures PartlyDone(pool, done + {root}, more)
  {
    more := entries;
    if root !in pool.data {
      NoAggregate(pool, done, entries, root);
      return;
    }
    var ids := KnownSigners(pool, groups[root]);
    if ids == [] || !pool.answers.aggregates(root) {
      NoAggregate(pool, done, entries, root);
      return;
    }
    var participants := BitsOf(ids);
    var payload := Payload(pool.data[root].slot, participants);
    OneAggregate(pool, done, entries, root, ids, payload);
    more := entries + EntriesFor(ids, root, payload);
  }

  /** `aggregate_committee_signatures`: the payloads that are added, for any order of the votes. Their keys are
      those of the signatures that are used up. */
  method AggregateSignatures(pool: Pool) returns (entries: seq<Entry>, used: set<SignatureKey>)
    requires |pool.validators| <= VALIDATOR_REGISTRY_LIMIT
    ensures AggregatesOf(pool, entries)
    ensures forall key :: key in used <==> Contributes(pool, key)
  {
    var groups := GroupSignatures(pool.signatures);
    entries := [];
    var rest := groups.Keys;
    ghost var done: set<Root> := {};
    while rest != {}
      invariant rest + done == groups.Keys
      invariant PartlyDone(pool, done, entries)
    {
      var root :| root in rest;
      entries := AggregateVote(pool, groups, done, entries, root);
      rest, done := rest - {root}, done + {root};
    }
    used := Keys(entries);
  }
}
