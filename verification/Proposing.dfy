/** Producing a block from the store. Over every run of verified events each stored proof names the
    validator it is filed under, so the block that comes out covers the votes collected for it, passes
    the non-cryptographic half of signature verification, and is imported by the store it came from. */
module Proposing {
  import opened Types
  import opened ForkChoice
  import opened Payloads
  import opened Store
  import opened StoreSafety
  import opened FastForward
  import opened StoreMachine
  import opened ProofSelection
  import opened Aggregation
  import opened BlockBuilder
  import opened Bookkeeping
  import opened Quorum
  import T = Transition

  // What is known of stored votes

  /** The proof names the validator it is filed under, and only validators of the registry. */
  predicate EntryNamed(e: Entry, n: nat) {
    e.key.validator < n && Bit(e.payload.participants, e.key.validator) && WithinRegistry(e.payload.participants, n)
  }

  predicate Named(entries: seq<Entry>, n: nat) {
    forall e :: e in entries ==> EntryNamed(e, n)
  }

  ghost predicate Keyed(H: Hasher, data: map<Root, AttestationData>) {
    forall r :: r in data ==> H.data(data[r]) == r
  }

  ghost predicate VotesNamed(H: Hasher, s: Store, n: nat) {
    Named(s.newPayloads, n) && Named(s.knownPayloads, n) && Keyed(H, s.data)
  }

  lemma NewestNamed(entries: seq<Entry>, more: seq<Entry>, cap: nat, n: nat)
    requires Named(entries, n) && Named(more, n)
    ensures Named(Newest(entries + more, cap), n)
  {
  }

  lemma {:induction false} BitEntriesNamed(bits: seq<bool>, dataRoot: Root, payload: Payload, k: nat, n: nat)
    requires k <= |bits| && payload.participants == bits && WithinRegistry(bits, n)
    ensures Named(BitEntries(bits, dataRoot, payload, k), n)
  {
    if k > 0 {
      BitEntriesNamed(bits, dataRoot, payload, k - 1, n);
    }
  }

  lemma {:induction false} BodyEntriesNamed(H: Hasher, sb: SignedBlock, k: nat, n: nat)
    requires SignaturesMatch(sb, n) && k <= |sb.block.body|
    ensures Named(BodyEntries(H, sb.block.body, sb.proofs, k), n)
  {
    if k > 0 {
      BodyEntriesNamed(H, sb, k - 1, n);
      var att := sb.block.body[k - 1];
      BitEntriesNamed(att.bits, H.data(att.data), Payload(att.data.slot, sb.proofs[k - 1]), |att.bits|, n);
    }
  }

  lemma {:induction false} BodyDataKeyed(H: Hasher, body: Body, k: nat)
    requires k <= |body|
    ensures Keyed(H, BodyData(H, body, k))
  {
    if k > 0 {
      BodyDataKeyed(H, body, k - 1);
    }
  }

  // Runs of verified events

  /** The votes a node has, as the input of its own aggregation. */
  function PoolOf(s: Store, signatures: seq<GossipSignature>, answers: Answers): Pool
    requires s.head in s.states
  {
    Pool(s.states[s.head].validators, s.data, signatures, answers)
  }

  /** What a tick can add: the aggregates of some signatures, or nothing. */
  ghost predicate OwnAggregates(s: Store, aggregates: seq<Entry>) {
    s.head in s.states && exists signatures, answers :: AggregatesOf(PoolOf(s, signatures, answers), aggregates)
  }

  /** The events of a node in operation: blocks are imported with their signatures verified, and what a tick adds
      was aggregated from signatures that the node holds. */
  ghost predicate Verified(s: Store, input: Input) {
    match input
    case ReceiveBlock(_, verify, _) => verify
    case Tick(_, aggregates) => OwnAggregates(s, aggregates)
    case _ => true
  }

  ghost predicate VerifiedStep(H: Hasher, s: Store, s': Store) {
    exists input :: Handles(H, s, input, s') && Verified(s, input)
  }

  ghost function NamedStores(H: Hasher, n: nat): iset<Store> {
    iset s: Store | VotesNamed(H, s, n)
  }

  lemma ImportNamed(H: Hasher, n: nat, s: Store, sb: SignedBlock, post: State)
    requires s in NamedStores(H, n) && SignaturesMatch(sb, n)
    ensures ImportBlock(H, s, sb, post) in NamedStores(H, n)
  {
    BodyEntriesNamed(H, sb, |sb.block.body|, n);
    BodyDataKeyed(H, sb.block.body, |sb.block.body|);
    NewestNamed(s.knownPayloads, BodyEntries(H, sb.block.body, sb.proofs, |sb.block.body|), AGGREGATED_PAYLOAD_CAP, n);
  }

  lemma BlockNamed(H: Hasher, a: Root, n: nat, s: Store, sb: SignedBlock, crypto: Crypto, s': Store)
    requires s in Sane(H, a) && |s.states[a].validators| == n && s in NamedStores(H, n)
    requires BlockStep(H, s, sb, true, crypto, s')
    ensures s' in NamedStores(H, n)
  {
    var r := BlockOutcome(H, s, sb, true, crypto);
    if r.Ok? && r.value.Some? {
      assert NodeSound(H, a, s.states, sb.block.parentRoot);
      SignaturesPassIff(s.states[sb.block.parentRoot].validators, sb, crypto);
      ImportNamed(H, n, s, sb, r.value.value);
    }
  }

  lemma AggregatesNamed(pool: Pool, entries: seq<Entry>)
    requires AggregatesOf(pool, entries)
    ensures Named(entries, |pool.validators|)
  {
    forall e | e in entries ensures EntryNamed(e, |pool.validators|) {
      assert EntryOf(pool, e);
      forall v | |pool.validators| <= v < |e.payload.participants| ensures !e.payload.participants[v] {
        assert Bit(e.payload.participants, v) <==> Contributes(pool, SignatureKey(v, e.key.dataRoot));
      }
    }
  }

  lemma OwnAggregatesNamed(H: Hasher, a: Root, n: nat, s: Store, aggregates: seq<Entry>)
    requires s in Sane(H, a) && |s.states[a].validators| == n && OwnAggregates(s, aggregates)
    ensures Named(aggregates, n)
  {
    var signatures, answers :| AggregatesOf(PoolOf(s, signatures, answers), aggregates);
    AggregatesNamed(PoolOf(s, signatures, answers), aggregates);
    assert NodeSound(H, a, s.states, s.head);
  }

  lemma TickNamed(H: Hasher, n: nat, s: Store, signal: bool, aggregates: seq<Entry>, s': Store)
    requires s in NamedStores(H, n) && Named(aggregates, n) && TickStep(s, signal, aggregates, s')
    ensures s' in NamedStores(H, n)
  {
    NewestNamed(s.newPayloads, aggregates, NEW_PAYLOAD_CAP, n);
    NewestNamed(s.knownPayloads, s.newPayloads, AGGREGATED_PAYLOAD_CAP, n);
  }

  lemma GossipNamed(H: Hasher, a: Root, n: nat, s: Store, d: AttestationData, proof: seq<bool>, crypto: Crypto)
    requires s in Sane(H, a) && |s.states[a].validators| == n && s in NamedStores(H, n)
    requires GossipOutcome(s, d, proof, crypto) == None
    ensures Gossip(H, s, d, proof) in NamedStores(H, n)
  {
    assert NodeSound(H, a, s.states, d.target.root);
    var entries := BitEntries(proof, H.data(d), Payload(d.slot, proof), |proof|);
    BitEntriesNamed(proof, H.data(d), Payload(d.slot, proof), |proof|, n);
    NewestNamed(s.newPayloads, entries, NEW_PAYLOAD_CAP, n);
  }

  lemma SameVotesNamed(H: Hasher, n: nat, s: Store, s': Store)
    requires s in NamedStores(H, n)
    requires s'.newPayloads == s.newPayloads && s'.knownPayloads == s.knownPayloads && s'.data == s.data
    ensures s' in NamedStores(H, n)
  {
  }

  lemma VoteNamed(H: Hasher, n: nat, s: Store, d: AttestationData)
    requires s in NamedStores(H, n)
    ensures StoreVote(H, s, d) in NamedStores(H, n)
  {
  }

  lemma InputNamed(H: Hasher, a: Root, n: nat, s: Store, input: Input, s': Store)
    requires s in Sane(H, a) && |s.states[a].validators| == n && s in NamedStores(H, n)
    requires Handles(H, s, input, s') && Verified(s, input)
    ensures s' in NamedStores(H, n)
  {
    match input
    case ReceiveBlock(sb, _, crypto) => BlockNamed(H, a, n, s, sb, crypto, s');
    case Tick(signal, aggregates) =>
      OwnAggregatesNamed(H, a, n, s, aggregates);
      TickNamed(H, n, s, signal, aggregates, s');
    case ReceiveAggregate(d, proof, crypto) =>
      if GossipOutcome(s, d, proof, crypto).None? {
        GossipNamed(H, a, n, s, d, proof, crypto);
      }
    case ReceiveVote(vote, _) => VoteNamed(H, n, s, vote.data);
    case Jump(_) => SameVotesNamed(H, n, s, s');
    case HoldBlock(_) => SameVotesNamed(H, n, s, s');
  }

  /** The stores a verified run can reach from anchor `a`, whose registry has `n` validators. */
  ghost function Operating(H: Hasher, a: Root, n: nat): iset<Store> {
    iset s: Store | s in Sane(H, a) && |s.states[a].validators| == n && s in NamedStores(H, n)
  }

  lemma InputOperates(H: Hasher, a: Root, n: nat, s: Store, input: Input, s': Store)
    requires CollisionFree(H) && s in Operating(H, a, n) && Handles(H, s, input, s') && Verified(s, input)
    ensures s' in Operating(H, a, n)
  {
    InputSound(H, a, s, input, s');
    InputStates(H, a, s, input, s');
    InputNamed(H, a, n, s, input, s');
  }

  ghost predicate IsVerifiedRun(H: Hasher, trace: seq<Store>) {
    trace != [] && forall i, j :: 0 <= i && j == i + 1 < |trace| ==> VerifiedStep(H, trace[i], trace[j])
  }

  /** At every point of every verified run from an anchor, each stored proof names its validator. */
  lemma {:induction false} RunOperates(H: Hasher, anchor: State, trace: seq<Store>, j: nat)
    requires CollisionFree(H) && Inv(H, anchor) && j < |trace|
    requires IsVerifiedRun(H, trace) && trace[0] == InitStore(H, anchor)
    ensures trace[j] in Operating(H, InitStore(H, anchor).head, |anchor.validators|)
  {
    if j == 0 {
      AnchorSound(H, anchor);
    } else {
      RunOperates(H, anchor, trace, j - 1);
      var s, s' := trace[j - 1], trace[j];
      assert VerifiedStep(H, s, s');
      var input :| Handles(H, s, input, s') && Verified(s, input);
      InputOperates(H, InitStore(H, anchor).head, |anchor.validators|, s, input, s');
    }
  }

  // The plan for a block

  /** The proofs filed under one key, oldest first. */
  function ProofsOf(entries: seq<Entry>, key: SignatureKey): seq<Proof> {
    if entries == [] then []
    else
      var e := entries[|entries| - 1];
      ProofsOf(entries[..|entries| - 1], key) + if e.key == key then [e.payload.participants] else []
  }

  lemma {:induction false} ProofsAreStored(entries: seq<Entry>, key: SignatureKey, p: Proof)
    ensures p in ProofsOf(entries, key) <==> exists e :: e in entries && e.key == key && e.payload.participants == p
  {
    if entries != [] {
      var front, e := entries[..|entries| - 1], entries[|entries| - 1];
      ProofsAreStored(front, key, p);
      assert entries == front + [e];
    }
  }

  ghost predicate GroupedByKey(entries: seq<Entry>, table: ProofTable) {
    && (forall key :: key in table <==> key in Keys(entries))
    && (forall key :: key in table ==> table[key] == ProofsOf(entries, key))
  }

  lemma NotFiled(entries: seq<Entry>, key: SignatureKey)
    requires key !in Keys(entries)
    ensures ProofsOf(entries, key) == []
  {
  }

  /** Groups the buffer by key, in insertion order within each group. */
  method GroupPayloads(entries: seq<Entry>) returns (table: ProofTable)
    ensures GroupedByKey(entries, table)
  {
    table := map[];
    for i := 0 to |entries|
      invariant GroupedByKey(entries[..i], table)
    {
      var e := entries[i];
      GroupOne(entries[..i], table, e);
      assert entries[..i] + [e] == entries[..i + 1];
      table := table[e.key := (if e.key in table then table[e.key] else []) + [e.payload.participants]];
    }
    assert entries[..|entries|] == entries;
  }

  lemma GroupOne(entries: seq<Entry>, table: ProofTable, e: Entry)
    requires GroupedByKey(entries, table)
    ensures GroupedByKey(entries + [e],
              table[e.key := (if e.key in table then table[e.key] else []) + [e.payload.participants]])
  {
    var more := entries + [e];
    assert more[..|more| - 1] == entries;
    KeysOfConcat(entries, [e]);
    assert Keys([e]) == {e.key};
    if e.key !in table {
      NotFiled(entries, e.key);
    }
  }

  /** `list` holds the votes of a vote map, one per validator, in any order. */
  ghost predicate ListsVotes(votes: Votes, list: seq<ValidatorVote>) {
    |list| == |votes| && forall a :: a in list <==> a.validator in votes && votes[a.validator] == a.data
  }

  method ListVotes(votes: Votes) returns (list: seq<ValidatorVote>)
    ensures ListsVotes(votes, list)
  {
    list := [];
    var rest := votes.Keys;
    while rest != {}
      invariant rest <= votes.Keys && |list| + |rest| == |votes.Keys|
      invariant forall a :: a in list <==> a.validator in votes && a.validator !in rest && votes[a.validator] == a.data
    {
      var v :| v in rest;
      list := list + [ValidatorVote(v, votes[v])];
      rest := rest - {v};
    }
  }

  /** What a block is built from: the head's state, the latest known votes, the live blocks and the known proofs. */
  ghost predicate PlanFrom(s: Store, slot: Slot, proposer: ValidatorIndex, plan: Plan) {
    && s.head in s.states && plan.head == s.states[s.head] && plan.parentRoot == s.head
    && plan.slot == slot && plan.proposer == proposer && plan.known == s.live.Keys
    && GroupedByKey(s.knownPayloads, plan.table)
    && exists votes :: HeadVotes(s, votes) && ListsVotes(votes, plan.available)
  }

  lemma VoteProvable(H: Hasher, s: Store, n: nat, table: ProofTable, votes: Votes, v: ValidatorIndex)
    requires VotesNamed(H, s, n) && GroupedByKey(s.knownPayloads, table) && HeadVotes(s, votes) && v in votes
    ensures v < n && Provable(table, H.data(votes[v]), v)
  {
    var r :| SignatureKey(v, r) in Keys(s.knownPayloads) && r in s.data && s.data[r] == votes[v];
    var key := SignatureKey(v, r);
    var e :| e in s.knownPayloads && e.key == key;
    assert EntryNamed(e, n);
    ProofsAreStored(s.knownPayloads, key, e.payload.participants);
    forall p | p in table[key] ensures Bit(p, v) {
      ProofsAreStored(s.knownPayloads, key, p);
      var q :| q in s.knownPayloads && q.key == key && q.payload.participants == p;
      assert EntryNamed(q, n);
    }
  }

  lemma FewVotes(votes: Votes, n: nat)
    requires forall v :: v in votes ==> v < n
    ensures |votes| <= n
  {
    SubsetSize(votes.Keys, Registry(n));
  }

  lemma HeadIsSound(H: Hasher, a: Root, n: nat, s: Store)
    requires CollisionFree(H) && s in Operating(H, a, n) && s.head in s.states
    ensures var head := s.states[s.head]; Inv(H, head) && |head.validators| == n && TipRoot(H, head) == s.head
  {
    assert NodeSound(H, a, s.states, s.head);
  }

  lemma VotesProvable(H: Hasher, s: Store, n: nat, plan: Plan, votes: Votes)
    requires VotesNamed(H, s, n) && GroupedByKey(s.knownPayloads, plan.table)
    requires HeadVotes(s, votes) && ListsVotes(votes, plan.available)
    ensures |plan.available| <= n && forall a :: a in plan.available ==> a.validator < n
    ensures AllProvable(H, plan.available, plan.table)
  {
    forall v | v in votes ensures v < n && Provable(plan.table, H.data(votes[v]), v) {
      VoteProvable(H, s, n, plan.table, votes, v);
    }
    FewVotes(votes, n);
  }

  /** A plan drawn from an operating store meets the limits the builder's conversions insist on, starts from
      a state within the invariant, and every vote it offers is provable. */
  lemma PlanIsSound(H: Hasher, a: Root, n: nat, s: Store, slot: Slot, proposer: ValidatorIndex, plan: Plan)
    requires CollisionFree(H) && s in Operating(H, a, n) && n <= VALIDATOR_REGISTRY_LIMIT
    requires PlanFrom(s, slot, proposer, plan)
    ensures WithinLimits(plan) && Inv(H, plan.head) && |plan.head.validators| == n
    ensures TipRoot(H, plan.head) == plan.parentRoot
    ensures AllProvable(H, plan.available, plan.table)
  {
    HeadIsSound(H, a, n, s);
    var votes :| HeadVotes(s, votes) && ListsVotes(votes, plan.available);
    VotesProvable(H, s, n, plan, votes);
  }

  // Producing

  lemma NothingToAggregate(s: Store)
    requires s.head in s.states
    ensures OwnAggregates(s, [])
  {
    var answers := Answers(_ => true, _ => true);
    assert AggregatesOf(PoolOf(s, [], answers), []);
  }

  lemma TickOperates(H: Hasher, a: Root, n: nat, s: Store, signal: bool, s': Store)
    requires CollisionFree(H) && s in Operating(H, a, n) && TickStep(s, signal, [], s')
    ensures s' in Operating(H, a, n)
  {
    NothingToAggregate(s);
    InputOperates(H, a, n, s, Tick(signal, []), s');
  }

  lemma {:induction false} TickingOperates(H: Hasher, a: Root, n: nat, trace: seq<Store>, target: nat,
                                           hasProposal: bool, i: nat)
    requires CollisionFree(H) && trace != [] && trace[0] in Operating(H, a, n) && i < |trace|
    requires Ticking(trace, target, hasProposal, [])
    ensures trace[i] in Operating(H, a, n)
  {
    if i > 0 {
      TickingOperates(H, a, n, trace, target, hasProposal, i - 1);
      assert NextTick(trace[i - 1], target, hasProposal, [], trace[i]);
      TickOperates(H, a, n, trace[i - 1], hasProposal && trace[i - 1].time + 1 == target, trace[i]);
    }
  }

  lemma JumpOperates(H: Hasher, a: Root, n: nat, s: Store, target: nat)
    requires CollisionFree(H) && s in Operating(H, a, n)
    ensures JumpAhead(s, target) in Operating(H, a, n)
  {
    SaneFacts(H, a, s);
    StaysSane(H, a, s, JumpAhead(s, target).time, s.data, s.newPayloads);
  }

  lemma AcceptOperates(H: Hasher, a: Root, n: nat, s: Store, s': Store)
    requires CollisionFree(H) && s in Operating(H, a, n) && SlotIncreasing(s.live) && Accepts(s, s')
    ensures s' in Operating(H, a, n)
  {
    var votes :| HeadVotes(Promote(s), votes) && s' == AcceptNew(s, votes);
    PromoteSound(H, a, s, s');
    NewestNamed(s.knownPayloads, s.newPayloads, AGGREGATED_PAYLOAD_CAP, n);
  }

  /** `get_proposal_head`: the clock at the start of the slot, the waiting votes promoted, the head chosen. */
  method GetProposalHead(store: ForkChoiceStore, slot: Slot, ghost n: nat) returns (head: Root, ghost trace: seq<Store>)
    requires store.Valid() && store.View() in Operating(store.H, store.anchor, n)
    modifies store
    ensures store.Valid() && store.View() in Operating(store.H, store.anchor, n) && head == store.head
    ensures var target := slot * INTERVALS_PER_SLOT;
            && TicksTo(JumpAhead(old(store.View()), target), trace, target, true, [])
            && SlotIncreasing(trace[|trace| - 1].live) && Accepts(trace[|trace| - 1], store.View())
  {
    ghost var before := store.View();
    trace := store.OnTick(store.genesisTime * 1000 + slot * 4000, true, false, []);
    assert store.TargetTime(store.genesisTime * 1000 + slot * 4000) == slot * INTERVALS_PER_SLOT;
    JumpOperates(store.H, store.anchor, n, before, slot * INTERVALS_PER_SLOT);
    TickingOperates(store.H, store.anchor, n, trace, slot * INTERVALS_PER_SLOT, true, |trace| - 1);
    store.AcceptNewAttestations();
    AcceptOperates(store.H, store.anchor, n, trace[|trace| - 1], store.View());
    head := store.head;
  }

  method MakePlan(store: ForkChoiceStore, slot: Slot, proposer: ValidatorIndex) returns (plan: Plan)
    requires store.Valid()
    ensures PlanFrom(store.View(), slot, proposer, plan)
  {
    SaneFacts(store.H, store.anchor, store.View());
    var table := GroupPayloads(store.knownPayloads);
    var votes := ExtractLatest(Keys(store.knownPayloads), store.data);
    var available := ListVotes(votes);
    assert HeadVotes(store.View(), votes) && ListsVotes(votes, available);
    plan := Plan(store.states[store.head], slot, proposer, store.head, available, store.live.Keys, table);
  }

  datatype ProduceError = NotProposer(validator: ValidatorIndex, slot: Slot) | BuildFailed(error: T.Error)

  /** When a block for `slot` can be built on a head state: it is the validator's turn, the slot is ahead of
      the state, and it is within the history limit. */
  predicate CanPropose(head: State, slot: Slot, validator: ValidatorIndex) {
    0 < |head.validators| && validator == slot % |head.validators| && head.slot < slot <= 262144
  }

  // The chosen head has no stored child, so a block built on it is new

  lemma HeadHasNoChild(H: Hasher, a: Root, s: Store, votes: Votes, r: Root)
    requires CollisionFree(H) && s in Sane(H, a) && SlotIncreasing(s.live) && s.head == Head(s, votes, 0)
    requires r in s.states
    ensures s.states[r].header.parentRoot != s.head
  {
    SaneFacts(H, a, s);
    var start := s.live[s.justified.root].slot;
    HeadDescends(s.live, votes, start, 0, s.justified.root);
    AncestorBelow(s.live, s.justified.root, s.head);
    assert NodeSound(H, a, s.states, s.head) && NodeSound(H, a, s.states, r);
    ParentOfAnchorIsOlder(H, a, s.states);
    assert r in s.live ==> r !in Children(s.live, votes, start, 0, s.head);
  }

  lemma BuiltIsNew(H: Hasher, a: Root, s: Store, votes: Votes, b: Block)
    requires CollisionFree(H) && s in Sane(H, a) && SlotIncreasing(s.live) && s.head == Head(s, votes, 0)
    requires b.parentRoot == s.head
    ensures BlockRoot(H, b) !in s.states
  {
    var root := BlockRoot(H, b);
    if root in s.states {
      assert NodeSound(H, a, s.states, root);
      HeadHasNoChild(H, a, s, votes, root);
    }
  }

  /** A built block with its proofs, and a vote of its proposer. */
  function WithVote(built: Built, d: AttestationData): SignedBlock {
    SignedBlock(built.block, ValidatorVote(built.block.proposer, d), built.proofs)
  }

  /** Whatever its proposer votes for, if the signatures on it are valid the store imports the block as a new
      one with the post-state it was built with; and no vote collected for it is left out. */
  ghost predicate SelfAccepted(H: Hasher, s: Store, n: nat, built: Built, included: seq<ValidatorVote>) {
    && built.block.parentRoot == s.head && s.head in s.states
    && (forall d :: SignaturesMatch(WithVote(built, d), n))
    && (forall d, crypto :: AllVerify(s.states[s.head].validators, WithVote(built, d), crypto) ==>
          BlockOutcome(H, s, WithVote(built, d), true, crypto) == Ok(Some(Seal(built.post, built.block))))
    && (forall a :: a in included ==> Included(built.block.body, a))
  }

  lemma BuiltIsSelfAccepted(H: Hasher, a: Root, n: nat, s: Store, votes: Votes, plan: Plan, built: Built,
                            included: seq<ValidatorVote>)
    requires CollisionFree(H) && s in Operating(H, a, n) && n <= VALIDATOR_REGISTRY_LIMIT
    requires SlotIncreasing(s.live) && s.head == Head(s, votes, 0)
    requires PlanFrom(s, plan.slot, plan.proposer, plan) && plan.proposer < n
    requires T.StateTransition(H, plan.head, built.block) == Ok(built.post)
    requires built.block.parentRoot == plan.parentRoot && built.block.proposer == plan.proposer
    requires |built.block.body| == |built.proofs|
    requires forall i :: 0 <= i < |built.proofs| ==> built.block.body[i].bits == built.proofs[i]
    requires forall agg :: agg in built.block.body ==> Justified(H, included, plan.table, agg)
    requires AllProvable(H, included, plan.table) ==> forall v :: v in included ==> Included(built.block.body, v)
    requires Collected(H, plan, included)
    ensures SelfAccepted(H, s, n, built, included)
  {
    PlanIsSound(H, a, n, s, plan.slot, plan.proposer, plan);
    BuiltIsNew(H, a, s, votes, built.block);
    forall i | 0 <= i < |built.proofs| ensures WithinRegistry(built.proofs[i], n) {
      assert built.block.body[i] in built.block.body;
      SelectedWithinRegistry(H, s, n, plan.table, included, built.block.body[i]);
    }
    forall d, crypto | AllVerify(plan.head.validators, WithVote(built, d), crypto)
      ensures BlockOutcome(H, s, WithVote(built, d), true, crypto) == Ok(Some(Seal(built.post, built.block)))
    {
      VerifiedImports(H, s, WithVote(built, d), crypto);
    }
  }

  lemma VerifiedImports(H: Hasher, s: Store, sb: SignedBlock, crypto: Crypto)
    requires sb.block.parentRoot in s.states && BlockRoot(H, sb.block) !in s.states
    requires var parent := s.states[sb.block.parentRoot];
             && SignaturesMatch(sb, |parent.validators|) && AllVerify(parent.validators, sb, crypto)
             && T.StateTransition(H, parent, sb.block).Ok?
    ensures BlockOutcome(H, s, sb, true, crypto)
         == Ok(Some(Seal(T.StateTransition(H, s.states[sb.block.parentRoot], sb.block).value, sb.block)))
  {
    SignaturesPassIff(s.states[sb.block.parentRoot].validators, sb, crypto);
  }

  lemma SelectedWithinRegistry(H: Hasher, s: Store, n: nat, table: ProofTable, included: seq<ValidatorVote>,
                               agg: AggregatedAttestation)
    requires Named(s.knownPayloads, n) && GroupedByKey(s.knownPayloads, table) && Justified(H, included, table, agg)
    ensures WithinRegistry(agg.bits, n)
  {
    var v :| v in included && agg.data == v.data && KeyOf(H, v) in table && agg.bits in table[KeyOf(H, v)];
    ProofsAreStored(s.knownPayloads, KeyOf(H, v), agg.bits);
    var e :| e in s.knownPayloads && e.key == KeyOf(H, v) && e.payload.participants == agg.bits;
    assert EntryNamed(e, n);
  }

  /** Why a validator that cannot propose is refused: not its turn, a slot that is not ahead of the head state, or
      one beyond the history limit. */
  function Refusal(head: State, slot: Slot, validator: ValidatorIndex): ProduceError {
    if T.CurrentProposer(slot, |head.validators|) != Some(validator) then NotProposer(validator, slot)
    else if head.slot >= slot || head.header.slot >= slot then BuildFailed(T.StateSlotIsNewer(slot, head.slot))
    else BuildFailed(T.SlotGapTooLarge(slot - head.header.slot - 1, |head.history|, HISTORICAL_ROOTS_LIMIT))
  }

  lemma RefusalIsBuilders(H: Hasher, plan: Plan, error: T.Error)
    requires CollisionFree(H) && Inv(H, plan.head) && TipRoot(H, plan.head) == plan.parentRoot
    requires T.CurrentProposer(plan.slot, |plan.head.validators|) == Some(plan.proposer)
    requires T.ApplyBlock(H, plan.head, Candidate(plan, [])) == Err(error)
    ensures BuildFailed(error) == Refusal(plan.head, plan.slot, plan.proposer)
  {
    ErrorIsHeaders(H, plan.head, Candidate(plan, []));
  }

  /** Builds the block of a plan drawn from the store `s`, whose head was chosen by `votes`. */
  method BuildOn(H: Hasher, ghost a: Root, ghost n: nat, ghost s: Store, ghost votes: Votes, plan: Plan)
    returns (r: Result<Built, T.Error>, ghost passes: seq<Pass>)
    requires CollisionFree(H) && DataRootsDistinct(H) && n <= VALIDATOR_REGISTRY_LIMIT
    requires s in Operating(H, a, n) && SlotIncreasing(s.live) && s.head == Head(s, votes, 0)
    requires PlanFrom(s, plan.slot, plan.proposer, plan)
    requires T.CurrentProposer(plan.slot, |plan.head.validators|) == Some(plan.proposer)
    ensures r.Ok? <==> CanPropose(plan.head, plan.slot, plan.proposer)
    ensures r.Err? ==> BuildFailed(r.error) == Refusal(plan.head, plan.slot, plan.proposer)
    ensures r.Ok? ==> FixedPoint(H, plan, passes) && SelfAccepted(H, s, n, r.value, passes[|passes| - 1].included)
  {
    PlanIsSound(H, a, n, s, plan.slot, plan.proposer, plan);
    ghost var included;
    r, included, passes := BuildBlock(H, plan);
    if r.Ok? {
      BuiltIsSelfAccepted(H, a, n, s, votes, plan, r.value, included);
    } else {
      RefusalIsBuilders(H, plan, r.error);
    }
  }

  /** `produce_block_with_signatures`: succeeds exactly when the validator can propose, and says why not otherwise.
      What it produces is imported as a new block by the very store it was produced from, and its votes are a fixed
      point of the collection. */
  method ProduceBlock(store: ForkChoiceStore, slot: Slot, validator: ValidatorIndex, ghost n: nat)
    returns (r: Result<Built, ProduceError>, ghost trace: seq<Store>, ghost plan: Plan, ghost passes: seq<Pass>)
    requires store.Valid() && DataRootsDistinct(store.H) && n <= VALIDATOR_REGISTRY_LIMIT
    requires store.View() in Operating(store.H, store.anchor, n)
    modifies store
    ensures store.Valid() && store.View() in Operating(store.H, store.anchor, n) && store.head in store.states
    ensures var target := slot * INTERVALS_PER_SLOT;
            && TicksTo(JumpAhead(old(store.View()), target), trace, target, true, [])
            && SlotIncreasing(trace[|trace| - 1].live) && Accepts(trace[|trace| - 1], store.View())
    ensures r.Ok? <==> CanPropose(store.states[store.head], slot, validator)
    ensures r.Err? ==> r.error == Refusal(store.states[store.head], slot, validator)
    ensures r.Ok? ==> PlanFrom(store.View(), slot, validator, plan) && FixedPoint(store.H, plan, passes)
    ensures r.Ok? ==> SelfAccepted(store.H, store.View(), n, r.value, passes[|passes| - 1].included)
  {
    var head;
    head, trace := GetProposalHead(store, slot, n);
    SaneFacts(store.H, store.anchor, store.View());
    var state := store.states[head];
    var inputs := MakePlan(store, slot, validator);
    plan, passes := inputs, [];
    if T.CurrentProposer(slot, |state.validators|) != Some(validator) {
      return Err(NotProposer(validator, slot)), trace, plan, passes;
    }
    ghost var votes := AcceptedVotes(trace[|trace| - 1], store.View());
    var built;
    built, passes := BuildOn(store.H, store.anchor, n, store.View(), votes, inputs);
    if built.Err? {
      return Err(BuildFailed(built.error)), trace, plan, passes;
    }
    r := Ok(built.value);
  }

  lemma AcceptedVotes(s: Store, s': Store) returns (votes: Votes)
    requires SlotIncreasing(s.live) && Accepts(s, s')
    ensures SlotIncreasing(s'.live) && s'.head == Head(s', votes, 0)
  {
    votes :| HeadVotes(Promote(s), votes) && s' == AcceptNew(s, votes);
  }
}
