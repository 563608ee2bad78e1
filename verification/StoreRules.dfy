/** What the handlers of the store do, field by field, in terms of the blocks and votes they were given. Nothing
    here is phrased with the functions that carry the handlers out. */
module StoreRules {
  import opened Types
  import opened VoteMatrix
  import opened ForkChoice
  import opened Payloads
  import opened Store
  import opened StoreSafety
  import opened ProofSelection
  import T = Transition

  // Which votes are let in

  ghost predicate StoredAt(s: Store, c: Checkpoint) {
    c.root in s.headers && s.headers[c.root].slot == c.slot
  }

  /** A vote whose three blocks are stored at their slots, in order of slots, not more than one slot ahead. */
  ghost predicate Plausible(s: Store, d: AttestationData) {
    && StoredAt(s, d.source) && StoredAt(s, d.target) && StoredAt(s, d.head)
    && d.source.slot <= d.target.slot <= d.head.slot
    && d.slot <= s.time / 5 + 1
  }

  lemma ValidIffPlausible(s: Store, d: AttestationData)
    ensures ValidateAttestationData(s, d) == None <==> Plausible(s, d)
  {
  }

  /** A single vote is let in exactly when it is plausible and signed by a registered validator. */
  lemma VoteAcceptedIff(s: Store, vote: ValidatorVote, crypto: Crypto)
    ensures GossipVoteOutcome(s, vote, crypto) == None
       <==> && Plausible(s, vote.data) && vote.data.target.root in s.states
            && var validators := s.states[vote.data.target.root].validators;
               && vote.validator < |validators| && crypto.keyDecodes(validators[vote.validator].pubkey)
               && crypto.signatureDecodes && crypto.signatureVerifies
  {
    ValidIffPlausible(s, vote.data);
  }

  /** An aggregated vote is let in exactly when it is plausible and proved for registered validators. */
  lemma AggregateAcceptedIff(s: Store, d: AttestationData, proof: seq<bool>, crypto: Crypto)
    ensures GossipOutcome(s, d, proof, crypto) == None
       <==> && Plausible(s, d) && d.target.root in s.states
            && var validators := s.states[d.target.root].validators;
               && (forall v :: 0 <= v < |proof| && proof[v] ==>
                     v < |validators| && crypto.keyDecodes(validators[v].pubkey))
               && crypto.proofVerifies(0)
  {
    ValidIffPlausible(s, d);
    if d.target.root in s.states && WithinRegistry(proof, |s.states[d.target.root].validators|) {
      BadKeyIff(s.states[d.target.root].validators, proof, crypto, 0);
    }
  }

  // Buffers

  /** `kept` is what a buffer of `cap` entries keeps of `all`: the last ones. */
  ghost predicate KeepsLast(all: seq<Entry>, cap: nat, kept: seq<Entry>) {
    |kept| == (if |all| <= cap then |all| else cap) && kept == all[|all| - |kept|..]
  }

  lemma NewestKeepsLast(all: seq<Entry>, cap: nat)
    ensures KeepsLast(all, cap, Newest(all, cap))
  {
  }

  // The head

  /** The head for some latest votes: the end of the heaviest path from the justified block. */
  ghost predicate HeadFor(s: Store, votes: Votes, head: Root)
    requires SlotIncreasing(s.live)
  {
    exists path :: IsHeaviestPath(s.live, votes, 0, path) && path[0] == s.justified.root && path[|path| - 1] == head
  }

  lemma HeadIsHeaviest(s: Store, votes: Votes)
    requires SlotIncreasing(s.live) && s.justified.root in s.live
    ensures HeadFor(s, votes, Head(s, votes, 0))
  {
    var path := HeadEndsHeaviestPath(s.live, votes, 0, s.justified.root);
  }

  // The safe target

  /** The safe target for some votes of both pools: two thirds of `n` stand behind every block from the justified
      one down to it, and behind no child of it. */
  ghost predicate SafeFor(s: Store, votes: Votes, n: nat, safe: Root)
    requires SlotIncreasing(s.live)
  {
    && safe in s.live && IsAncestor(s.live, s.justified.root, safe)
    && (forall r :: r in s.live && r != s.justified.root && IsAncestor(s.live, s.justified.root, r)
                    && IsAncestor(s.live, r, safe) ==>
          3 * Support(s.live, votes, r) >= 2 * n)
    && (forall c :: c in s.live && s.live[c].parent == safe ==> 3 * Support(s.live, votes, c) < 2 * n)
  }

  lemma TwoThirdsMeans(n: nat, support: nat)
    ensures support >= TwoThirds(n) <==> 3 * support >= 2 * n
  {
  }

  lemma ThresholdIsSafe(s: Store, votes: Votes, n: nat)
    requires SlotIncreasing(s.live) && s.justified.root in s.live && n > 0
    requires forall r :: r in s.live ==> r != ZERO
    ensures SafeFor(s, votes, n, Head(s, votes, TwoThirds(n)))
  {
    var start, from := s.live[s.justified.root].slot, s.justified.root;
    var safe := Head(s, votes, TwoThirds(n));
    HeadDescends(s.live, votes, start, TwoThirds(n), from);
    forall r ensures (r in s.live && r != from && IsAncestor(s.live, from, r) && IsAncestor(s.live, r, safe) ==>
                        3 * Support(s.live, votes, r) >= 2 * n)
                  && (r in s.live && s.live[r].parent == safe ==> 3 * Support(s.live, votes, r) < 2 * n)
    {
      ThresholdPath(s.live, votes, start, TwoThirds(n), from, r);
      if r in s.live {
        TwoThirdsMeans(n, Support(s.live, votes, r));
      }
    }
  }

  lemma LiveRootsNonzero(H: Hasher, a: Root, s: Store)
    requires CollisionFree(H) && s in Sane(H, a)
    ensures forall r :: r in s.live ==> r != ZERO
  {
    forall r | r in s.live ensures r != ZERO {
      assert NodeSound(H, a, s.states, r);
    }
  }

  /** A new safe target, with the votes of both pools and the number of validators of the head's state. */
  ghost predicate MovesSafely(s: Store, s': Store) {
    && SlotIncreasing(s.live) && s.head in s.states && s' == s.(safeTarget := s'.safeTarget)
    && exists votes ::
         && IsLatest(Keys(s.knownPayloads) + Keys(s.newPayloads), s.data, votes)
         && (|s.states[s.head].validators| > 0 ==> SafeFor(s, votes, |s.states[s.head].validators|, s'.safeTarget))
  }

  lemma SafeTargetRule(H: Hasher, a: Root, s: Store, s': Store)
    requires CollisionFree(H) && s in Sane(H, a) && SlotIncreasing(s.live) && s.head in s.states
    requires MovesSafeTarget(s, s')
    ensures MovesSafely(s, s')
  {
    var votes :| SafeVotes(s, votes) && s' == UpdateSafeTarget(s, votes);
    var n := |s.states[s.head].validators|;
    SaneFacts(H, a, s);
    LiveRootsNonzero(H, a, s);
    if n > 0 {
      ThresholdIsSafe(s, votes, n);
    }
  }

  // Promotion

  /** All new payloads join the known ones, and the head is chosen by latest votes among those kept. */
  ghost predicate Promotes(s: Store, s': Store) {
    && SlotIncreasing(s.live)
    && s' == s.(head := s'.head, knownPayloads := s'.knownPayloads, newPayloads := [])
    && KeepsLast(s.knownPayloads + s.newPayloads, 4096, s'.knownPayloads)
    && exists votes :: IsLatest(Keys(s'.knownPayloads), s.data, votes) && HeadFor(s, votes, s'.head)
  }

  lemma PromotionRule(H: Hasher, a: Root, s: Store, s': Store)
    requires CollisionFree(H) && s in Sane(H, a) && SlotIncreasing(s.live) && Accepts(s, s')
    ensures Promotes(s, s')
  {
    var votes :| HeadVotes(Promote(s), votes) && s' == AcceptNew(s, votes);
    SaneFacts(H, a, s);
    NewestKeepsLast(s.knownPayloads + s.newPayloads, 4096);
    HeadIsHeaviest(s, votes);
  }

  // Ticks

  /** What a tick does, by the interval it reaches. */
  ghost predicate TickDoes(s: Store, signal: bool, aggregates: seq<Entry>, s': Store) {
    var t := s.(time := s.time + 1);
    match t.time % 5
    case 0 => if signal then Promotes(t, s') else s' == t
    case 1 => s' == t
    case 2 => s' == t.(newPayloads := s'.newPayloads) && KeepsLast(s.newPayloads + aggregates, 512, s'.newPayloads)
    case 3 => MovesSafely(t, s')
    case _ => Promotes(t, s')
  }

  /** Promotion at 0 with a proposal and at 4, aggregation at 2, the safe target at 3, nothing at 1. */
  lemma TickRule(H: Hasher, a: Root, s: Store, signal: bool, aggregates: seq<Entry>, s': Store)
    requires CollisionFree(H) && s in Sane(H, a) && TickStep(s, signal, aggregates, s')
    ensures TickDoes(s, signal, aggregates, s')
  {
    var t := SetTime(s, s.time + 1);
    JumpSound(H, a, s, s.time + 1);
    match t.time % 5 {
      case 0 => if signal { PromotionRule(H, a, t, s'); }
      case 1 =>
      case 2 => NewestKeepsLast(s.newPayloads + aggregates, 512);
      case 3 => SafeTargetRule(H, a, t, s');
      case _ => PromotionRule(H, a, t, s');
    }
  }

  // Blocks

  /** How many votes the first `k` attestations of a body carry. */
  ghost function VotesCarried(body: Body, k: nat): nat
    requires k <= |body|
  {
    if k == 0 then 0 else VotesCarried(body, k - 1) + |Voted(body[k - 1].bits)|
  }

  lemma {:induction false} BitEntriesLength(bits: seq<bool>, dataRoot: Root, payload: Payload, k: nat)
    requires k <= |bits|
    ensures |BitEntries(bits, dataRoot, payload, k)| == |Voted(bits[..k])|
  {
    if k == 0 {
      assert Voted(bits[..0]) == {};
    } else {
      BitEntriesLength(bits, dataRoot, payload, k - 1);
      assert Voted(bits[..k]) == Voted(bits[..k - 1]) + if bits[k - 1] then {k - 1} else {};
    }
  }

  lemma {:induction false} BodyEntriesLength(H: Hasher, body: Body, proofs: seq<seq<bool>>, k: nat)
    requires k <= |body| && k <= |proofs|
    ensures |BodyEntries(H, body, proofs, k)| == VotesCarried(body, k)
  {
    if k > 0 {
      var att := body[k - 1];
      BodyEntriesLength(H, body, proofs, k - 1);
      BitEntriesLength(att.bits, H.data(att.data), Payload(att.data.slot, proofs[k - 1]), |att.bits|);
      assert att.bits[..|att.bits|] == att.bits;
    }
  }

  /** The attestations of a block that come with a proof. */
  function Proved(sb: SignedBlock): nat {
    if |sb.block.body| <= |sb.proofs| then |sb.block.body| else |sb.proofs|
  }

  /** `entries` are the votes of a block, one per vote it carries, each with the proof of its attestation. */
  ghost predicate EntriesOf(H: Hasher, sb: SignedBlock, entries: seq<Entry>) {
    && |entries| == VotesCarried(sb.block.body, Proved(sb))
    && (forall key :: key in Keys(entries) <==> VoteInBody(H, sb.block.body, Proved(sb), key))
    && forall e :: e in entries ==> FromBody(H, sb, Proved(sb), e)
  }

  /** They join the known payloads, of which the last 4096 are kept. */
  ghost predicate VotesFiled(H: Hasher, known: seq<Entry>, sb: SignedBlock, known': seq<Entry>) {
    exists entries :: EntriesOf(H, sb, entries) && KeepsLast(known + entries, 4096, known')
  }

  /** An entry for a vote among the first `k` attestations of the block, with that attestation's proof. */
  ghost predicate FromBody(H: Hasher, sb: SignedBlock, k: nat, e: Entry)
    requires k <= |sb.block.body| && k <= |sb.proofs|
  {
    exists i :: 0 <= i < k && CastsVote(H, sb.block.body[i], e.key)
                && e.payload == Payload(sb.block.body[i].data.slot, sb.proofs[i])
  }

  lemma {:induction false} BitEntriesFrom(bits: seq<bool>, dataRoot: Root, payload: Payload, k: nat, e: Entry)
    requires k <= |bits| && e in BitEntries(bits, dataRoot, payload, k)
    ensures e.payload == payload && e.key.dataRoot == dataRoot && e.key.validator < |bits| && bits[e.key.validator]
  {
    if e in BitEntries(bits, dataRoot, payload, k - 1) {
      BitEntriesFrom(bits, dataRoot, payload, k - 1, e);
    }
  }

  lemma {:induction false} BodyEntriesFrom(H: Hasher, sb: SignedBlock, k: nat, e: Entry)
    requires k <= |sb.block.body| && k <= |sb.proofs| && e in BodyEntries(H, sb.block.body, sb.proofs, k)
    ensures FromBody(H, sb, k, e)
  {
    if e in BodyEntries(H, sb.block.body, sb.proofs, k - 1) {
      BodyEntriesFrom(H, sb, k - 1, e);
      assert FromBody(H, sb, k - 1, e);
    } else {
      var att := sb.block.body[k - 1];
      BitEntriesFrom(att.bits, H.data(att.data), Payload(att.data.slot, sb.proofs[k - 1]), |att.bits|, e);
      assert CastsVote(H, att, e.key);
    }
  }

  lemma FilingRule(H: Hasher, s: Store, sb: SignedBlock)
    ensures VotesFiled(H, s.knownPayloads, sb, RecordVotes(H, s, sb).knownPayloads)
  {
    var k := Proved(sb);
    var entries := BodyEntries(H, sb.block.body, sb.proofs, k);
    BodyEntriesLength(H, sb.block.body, sb.proofs, k);
    forall key ensures key in Keys(entries) <==> VoteInBody(H, sb.block.body, k, key) {
      BodyEntriesKeys(H, sb.block.body, sb.proofs, k, key);
    }
    forall e | e in entries ensures FromBody(H, sb, k, e) {
      BodyEntriesFrom(H, sb, k, e);
    }
    assert EntriesOf(H, sb, entries);
    NewestKeepsLast(s.knownPayloads + entries, 4096);
  }

  /** With room in the buffer the known keys grow by exactly the votes of the block. */
  lemma RoomForVotes(H: Hasher, known: seq<Entry>, sb: SignedBlock, known': seq<Entry>)
    requires VotesFiled(H, known, sb, known') && |known| + VotesCarried(sb.block.body, Proved(sb)) <= 4096
    ensures known <= known'
    ensures forall key :: key in Keys(known') <==> key in Keys(known) || VoteInBody(H, sb.block.body, Proved(sb), key)
  {
    var entries :| EntriesOf(H, sb, entries) && KeepsLast(known + entries, 4096, known');
    assert known' == known + entries;
    KeysOfConcat(known, entries);
  }

  /** The data of a block's votes, its proposer's included, is stored under its root, and no other is added. */
  ghost predicate DataFiled(H: Hasher, data: map<Root, AttestationData>, sb: SignedBlock,
                            data': map<Root, AttestationData>) {
    && (forall i :: 0 <= i < Proved(sb) ==>
          H.data(sb.block.body[i].data) in data' && data'[H.data(sb.block.body[i].data)] == sb.block.body[i].data)
    && H.data(sb.proposerVote.data) in data' && data'[H.data(sb.proposerVote.data)] == sb.proposerVote.data
    && (forall x :: x in data ==> x in data')
    && (forall x :: x in data' ==>
          || (x in data && data'[x] == data[x])
          || (exists i :: 0 <= i < Proved(sb) && H.data(sb.block.body[i].data) == x)
          || x == H.data(sb.proposerVote.data))
  }

  lemma {:induction false} BodyDataRule(H: Hasher, body: Body, k: nat)
    requires DataRootsDistinct(H) && k <= |body|
    ensures forall i :: 0 <= i < k ==>
              H.data(body[i].data) in BodyData(H, body, k) && BodyData(H, body, k)[H.data(body[i].data)] == body[i].data
    ensures forall x :: x in BodyData(H, body, k) ==> exists i :: 0 <= i < k && H.data(body[i].data) == x
  {
    if k > 0 {
      BodyDataRule(H, body, k - 1);
    }
  }

  lemma DataRule(H: Hasher, s: Store, sb: SignedBlock)
    requires DataRootsDistinct(H)
    ensures DataFiled(H, s.data, sb, RecordVotes(H, s, sb).data)
  {
    BodyDataRule(H, sb.block.body, Proved(sb));
  }

  /** The checkpoint of the higher slot, the old one on a tie. */
  function Later(old': Checkpoint, new': Checkpoint): Checkpoint {
    if new'.slot > old'.slot then new' else old'
  }

  /** What is left of the live index and of the vote data when the boundary has moved to `slot`. */
  ghost predicate LiveLeft(live: BlockTree, moved: bool, slot: Slot, live': BlockTree) {
    && (forall r :: r in live' <==> r in live && (moved ==> live[r].slot >= slot))
    && (forall r :: r in live' ==> live'[r] == live[r])
  }

  ghost predicate DataLeft(data: map<Root, AttestationData>, moved: bool, slot: Slot,
                           data': map<Root, AttestationData>) {
    && (forall x :: x in data' <==> x in data && (moved ==> data[x].slot > slot))
    && (forall x :: x in data' ==> data'[x] == data[x])
  }

  /** The tables after an imported block, before a head is chosen. */
  ghost predicate Imports(H: Hasher, s: Store, sb: SignedBlock, post: State, t: Store) {
    var root, header := BlockRoot(H, sb.block), HeaderOf(H, sb.block);
    var moved := post.finalized.slot > s.finalized.slot;
    && t == s.(justified := Later(s.justified, post.justified), finalized := Later(s.finalized, post.finalized),
               headers := s.headers[root := header], states := s.states[root := post],
               live := t.live, data := t.data, knownPayloads := t.knownPayloads)
    && (exists live :: LiveLeft(s.live, moved, post.finalized.slot, live)
                       && t.live == live[root := BlockRef(sb.block.slot, sb.block.parentRoot)])
    && (exists data :: DataLeft(s.data, moved, post.finalized.slot, data) && DataFiled(H, data, sb, t.data))
    && VotesFiled(H, s.knownPayloads, sb, t.knownPayloads)
  }

  lemma PruningRule(s: Store, post: State)
    ensures var t := UpdateCheckpoints(s, s.head, IfHigher(post.justified, s.justified),
                                       IfHigher(post.finalized, s.finalized));
            var moved := post.finalized.slot > s.finalized.slot;
            && t == s.(justified := Later(s.justified, post.justified), finalized := Later(s.finalized, post.finalized),
                       live := t.live, data := t.data)
            && LiveLeft(s.live, moved, post.finalized.slot, t.live)
            && DataLeft(s.data, moved, post.finalized.slot, t.data)
  {
  }

  lemma ImportRule(H: Hasher, s: Store, sb: SignedBlock, post: State)
    requires DataRootsDistinct(H)
    ensures Imports(H, s, sb, post, ImportBlock(H, s, sb, post))
  {
    var c := UpdateCheckpoints(s, s.head, IfHigher(post.justified, s.justified),
                               IfHigher(post.finalized, s.finalized));
    var i := InsertBlock(H, c, sb, post);
    PruningRule(s, post);
    FilingRule(H, i, sb);
    DataRule(H, i, sb);
    assert DataLeft(s.data, post.finalized.slot > s.finalized.slot, post.finalized.slot, c.data);
    assert LiveLeft(s.live, post.finalized.slot > s.finalized.slot, post.finalized.slot, c.live);
  }

  /** The proposer's own vote waits as a new payload, if signatures are not checked; its key names its validator. */
  ghost predicate ProposerFiled(H: Hasher, new': seq<Entry>, sb: SignedBlock, verify: bool, after: seq<Entry>) {
    if verify then after == new'
    else
      exists e: Entry ::
        && e.key == SignatureKey(sb.proposerVote.validator, H.data(sb.proposerVote.data))
        && e.payload.slot == sb.proposerVote.data.slot
        && (forall v :: Bit(e.payload.participants, v) <==> v == sb.proposerVote.validator)
        && KeepsLast(new' + [e], 512, after)
  }

  /** A new block: tables and checkpoints, then the head for the votes now known, and only then the proposer's vote. */
  ghost predicate BlockDoes(H: Hasher, s: Store, sb: SignedBlock, verify: bool, post: State, s': Store) {
    exists t, votes ::
      && Imports(H, s, sb, post, t) && SlotIncreasing(t.live)
      && IsLatest(Keys(t.knownPayloads), t.data, votes) && HeadFor(t, votes, s'.head)
      && s' == t.(head := s'.head, newPayloads := s'.newPayloads)
      && ProposerFiled(H, s.newPayloads, sb, verify, s'.newPayloads)
  }

  lemma ProposerRule(H: Hasher, s: Store, sb: SignedBlock, verify: bool)
    ensures ProposerFiled(H, s.newPayloads, sb, verify, RecordProposer(H, s, sb, verify).newPayloads)
  {
    var vote := sb.proposerVote;
    var e := Entry(SignatureKey(vote.validator, H.data(vote.data)), Payload(vote.data.slot, SoleBit(vote.validator)));
    NewestKeepsLast(s.newPayloads + [e], 512);
  }

  lemma BlockRule(H: Hasher, a: Root, s: Store, sb: SignedBlock, verify: bool, crypto: Crypto, s': Store, post: State)
    requires CollisionFree(H) && DataRootsDistinct(H) && s in Sane(H, a) && BlockStep(H, s, sb, verify, crypto, s')
    requires BlockOutcome(H, s, sb, verify, crypto) == Ok(Some(post))
    ensures BlockDoes(H, s, sb, verify, post, s')
  {
    var t := ImportBlock(H, s, sb, post);
    var votes :| HeadVotes(t, votes) && s' == RecordProposer(H, UpdateHead(t, votes), sb, verify);
    ImportRule(H, s, sb, post);
    ImportKeepsSane(H, a, s, sb, verify, crypto, votes);
    SaneFacts(H, a, UpdateHead(t, votes));
    HeadIsHeaviest(t, votes);
    ProposerRule(H, UpdateHead(t, votes), sb, verify);
    assert Imports(H, s, sb, post, t) && HeadFor(t, votes, s'.head);
  }

  /** So the fork choice that follows a block counts every vote in it: whatever map of latest votes it reads, each
      validator with a vote in the block has one of at least that slot. */
  lemma BlockVotesCount(H: Hasher, s: Store, sb: SignedBlock, post: State, t: Store, votes: Votes, i: nat,
                        v: ValidatorIndex)
    requires Imports(H, s, sb, post, t) && IsLatest(Keys(t.knownPayloads), t.data, votes)
    requires |s.knownPayloads| + VotesCarried(sb.block.body, Proved(sb)) <= 4096
    requires i < Proved(sb) && v in Voted(sb.block.body[i].bits)
    ensures v in votes && votes[v].slot >= sb.block.body[i].data.slot
  {
    var key := SignatureKey(v, H.data(sb.block.body[i].data));
    assert CastsVote(H, sb.block.body[i], key);
    assert VoteInBody(H, sb.block.body, Proved(sb), key);
    RoomForVotes(H, s.knownPayloads, sb, t.knownPayloads);
  }

  // Gossip

  /** One entry per participant of an aggregated vote, each with its proof. */
  ghost predicate EntriesFor(H: Hasher, d: AttestationData, proof: seq<bool>, entries: seq<Entry>) {
    && |entries| == |Voted(proof)| && (forall e :: e in entries ==> e.payload == Payload(d.slot, proof))
    && forall key :: key in Keys(entries) <==> key.dataRoot == H.data(d) && key.validator in Voted(proof)
  }

  /** An aggregated vote: its data is stored, and its entries join the new payloads, of which the last 512 are kept. */
  ghost predicate AggregateFiled(H: Hasher, s: Store, d: AttestationData, proof: seq<bool>, s': Store) {
    && s' == s.(data := s.data[H.data(d) := d], newPayloads := s'.newPayloads)
    && exists entries :: EntriesFor(H, d, proof, entries) && KeepsLast(s.newPayloads + entries, 512, s'.newPayloads)
  }

  lemma AggregateRule(H: Hasher, s: Store, d: AttestationData, proof: seq<bool>)
    ensures AggregateFiled(H, s, d, proof, Gossip(H, s, d, proof))
  {
    var payload := Payload(d.slot, proof);
    var entries := BitEntries(proof, H.data(d), payload, |proof|);
    BitEntriesLength(proof, H.data(d), payload, |proof|);
    assert proof[..|proof|] == proof;
    forall key ensures key in Keys(entries) <==> key.dataRoot == H.data(d) && key.validator in Voted(proof) {
      BitEntriesKeys(proof, H.data(d), payload, |proof|, key);
    }
    forall e | e in entries ensures e.payload == payload {
      BitEntriesFrom(proof, H.data(d), payload, |proof|, e);
    }
    assert EntriesFor(H, d, proof, entries);
    NewestKeepsLast(s.newPayloads + entries, 512);
  }

  // Start

  /** A fresh store: the anchor block alone, as head, safe target, justified and finalized checkpoint. */
  lemma AnchorRule(H: Hasher, anchor: State)
    ensures var s, zeroed := InitStore(H, anchor), anchor.(header := anchor.header.(stateRoot := ZERO));
            var header := anchor.header.(stateRoot := H.state(zeroed));
            && s.head == s.safeTarget == H.header(header)
            && s.justified == s.finalized == Checkpoint(s.head, anchor.header.slot)
            && s.headers == map[s.head := header] && s.states == map[s.head := anchor.(header := header)]
            && s.live == map[s.head := BlockRef(header.slot, header.parentRoot)]
            && s.time == 0 && s.genesisTime == anchor.genesisTime
            && s.data == map[] && s.newPayloads == [] && s.knownPayloads == []
  {
  }

  // All inputs

  /** A block is imported exactly when it is new, its parent's state is there, its signatures are checked and valid
      or not to be checked, and the transition accepts it. */
  lemma ImportedIff(H: Hasher, s: Store, sb: SignedBlock, verify: bool, crypto: Crypto, post: State)
    ensures BlockOutcome(H, s, sb, verify, crypto) == Ok(Some(post))
       <==> && BlockRoot(H, sb.block) !in s.states && sb.block.parentRoot in s.states
            && var parent := s.states[sb.block.parentRoot];
               && (verify ==> SignaturesMatch(sb, |parent.validators|) && AllVerify(parent.validators, sb, crypto))
               && T.StateTransition(H, parent, sb.block).Ok?
               && var t := T.StateTransition(H, parent, sb.block).value;
                  post == t.(header := t.header.(stateRoot := sb.block.stateRoot))
  {
    if sb.block.parentRoot in s.states {
      SignaturesPassIff(s.states[sb.block.parentRoot].validators, sb, crypto);
    }
  }

  /** What every input does to the store. */
  ghost predicate Does(H: Hasher, s: Store, input: Input, s': Store) {
    match input
    case ReceiveBlock(sb, verify, crypto) =>
      (match BlockOutcome(H, s, sb, verify, crypto)
       case Ok(Some(post)) => BlockDoes(H, s, sb, verify, post, s')
       case _ => s' == s)
    case Tick(signal, aggregates) => TickDoes(s, signal, aggregates, s')
    case Jump(time) => s.time <= time && s' == s.(time := time)
    case ReceiveAggregate(d, proof, crypto) =>
      if GossipOutcome(s, d, proof, crypto).None? then AggregateFiled(H, s, d, proof, s') else s' == s
    case ReceiveVote(vote, crypto) =>
      s' == if GossipVoteOutcome(s, vote, crypto).None? then s.(data := s.data[H.data(vote.data) := vote.data]) else s
    case HoldBlock(b) => s' == s.(headers := s.headers[H.header(HeaderOf(H, b)) := HeaderOf(H, b)])
  }

  /** In every store of a run. */
  lemma InputRule(H: Hasher, a: Root, s: Store, input: Input, s': Store)
    requires CollisionFree(H) && DataRootsDistinct(H) && s in Sane(H, a) && Handles(H, s, input, s')
    ensures Does(H, s, input, s')
  {
    match input
    case ReceiveBlock(sb, verify, crypto) =>
      var r := BlockOutcome(H, s, sb, verify, crypto);
      if r.Ok? && r.value.Some? {
        BlockRule(H, a, s, sb, verify, crypto, s', r.value.value);
      }
    case Tick(signal, aggregates) => TickRule(H, a, s, signal, aggregates, s');
    case ReceiveAggregate(d, proof, crypto) => AggregateRule(H, s, d, proof);
    case _ =>
  }
}
