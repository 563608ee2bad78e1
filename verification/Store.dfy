/** The fork-choice store as a value: its tables and pointers, and what each handler does to them.
    Where the client walks a hash map or hash set, the votes it may read from it are a parameter. */
module Store {
  import opened Types
  import opened ForkChoice
  import opened Payloads
  import T = Transition

  const INTERVALS_PER_SLOT: nat := 5
  const MILLISECONDS_PER_INTERVAL: nat := 800

  datatype Store = Store(
    time: nat,
    genesisTime: nat,
    head: Root,
    safeTarget: Root,
    justified: Checkpoint,
    finalized: Checkpoint,
    headers: map<Root, Header>,
    states: map<Root, State>,
    live: BlockTree,
    data: map<Root, AttestationData>,
    newPayloads: seq<Entry>,
    knownPayloads: seq<Entry>)

  datatype ValidatorVote = ValidatorVote(validator: ValidatorIndex, data: AttestationData)

  /** A block with its proposer's vote and one proof per aggregated attestation. */
  datatype SignedBlock = SignedBlock(block: Block, proposerVote: ValidatorVote, proofs: seq<seq<bool>>)

  // Anchor

  function ZeroStateRoot(s: State): State { s.(header := s.header.(stateRoot := ZERO)) }

  /** The anchor state with its own state root filled in. */
  function SealAnchor(H: Hasher, anchor: State): State {
    var z := ZeroStateRoot(anchor);
    z.(header := z.header.(stateRoot := H.state(z)))
  }

  /** A zero state root, or the right one: anything else stops the client at start-up. */
  predicate AnchorMatches(H: Hasher, anchor: State) {
    anchor.header.stateRoot == ZERO || anchor.header.stateRoot == H.state(ZeroStateRoot(anchor))
  }

  function RefOf(h: Header): BlockRef { BlockRef(h.slot, h.parentRoot) }

  function InitStore(H: Hasher, anchor: State): Store {
    var s := SealAnchor(H, anchor);
    var root := H.header(s.header);
    var c := Checkpoint(root, s.header.slot);
    Store(0, s.genesisTime, root, root, c, c, map[root := s.header], map[root := s], map[root := RefOf(s.header)],
          map[], [], [])
  }

  // Checkpoints

  /** Deletes the live entries below the finalized slot and the votes up to it. */
  function PruneFinalized(s: Store, slot: Slot): Store {
    s.(live := map r | r in s.live && s.live[r].slot >= slot :: s.live[r],
       data := map r | r in s.data && s.data[r].slot > slot :: s.data[r])
  }

  function UpdateCheckpoints(s: Store, head: Root, justified: Option<Checkpoint>,
                             finalized: Option<Checkpoint>): Store {
    var t := s.(head := head,
                justified := if justified.Some? then justified.value else s.justified,
                finalized := if finalized.Some? then finalized.value else s.finalized);
    if finalized.Some? && finalized.value.slot > s.finalized.slot then PruneFinalized(t, finalized.value.slot) else t
  }

  function IfHigher(c: Checkpoint, than: Checkpoint): Option<Checkpoint> {
    if c.slot > than.slot then Some(c) else None
  }

  // Fork choice

  ghost function Head(s: Store, votes: Votes, minScore: nat): Root
    requires SlotIncreasing(s.live)
  {
    if s.justified.root in s.live
    then GhostHead(s.live, votes, s.live[s.justified.root].slot, minScore, s.justified.root)
    else s.justified.root
  }

  ghost predicate HeadVotes(s: Store, votes: Votes) {
    IsLatest(Keys(s.knownPayloads), s.data, votes)
  }

  ghost function UpdateHead(s: Store, votes: Votes): Store
    requires SlotIncreasing(s.live)
  {
    s.(head := Head(s, votes, 0))
  }

  function Promote(s: Store): Store {
    s.(knownPayloads := Newest(s.knownPayloads + s.newPayloads, AGGREGATED_PAYLOAD_CAP), newPayloads := [])
  }

  ghost function AcceptNew(s: Store, votes: Votes): Store
    requires SlotIncreasing(s.live)
  {
    UpdateHead(Promote(s), votes)
  }

  ghost predicate SafeVotes(s: Store, votes: Votes) {
    IsLatest(Keys(s.knownPayloads) + Keys(s.newPayloads), s.data, votes)
  }

  ghost function UpdateSafeTarget(s: Store, votes: Votes): Store
    requires SlotIncreasing(s.live) && s.head in s.states
  {
    s.(safeTarget := Head(s, votes, TwoThirds(|s.states[s.head].validators|)))
  }

  // Blocks

  function InsertBlock(H: Hasher, s: Store, sb: SignedBlock, post: State): Store {
    var root, header := BlockRoot(H, sb.block), HeaderOf(H, sb.block);
    s.(headers := s.headers[root := header], live := s.live[root := RefOf(header)], states := s.states[root := post])
  }

  /** One entry per validator whose bit is set among the first `k` bits. */
  function BitEntries(bits: seq<bool>, dataRoot: Root, payload: Payload, k: nat): seq<Entry>
    requires k <= |bits|
  {
    if k == 0 then []
    else
      var last := if bits[k - 1] then [Entry(SignatureKey(k - 1, dataRoot), payload)] else [];
      BitEntries(bits, dataRoot, payload, k - 1) + last
  }

  /** The payload entries of the first `k` attestations of a body. */
  function BodyEntries(H: Hasher, body: Body, proofs: seq<seq<bool>>, k: nat): seq<Entry>
    requires k <= |body| && k <= |proofs|
  {
    if k == 0 then []
    else
      var att := body[k - 1];
      var last := BitEntries(att.bits, H.data(att.data), Payload(att.data.slot, proofs[k - 1]), |att.bits|);
      BodyEntries(H, body, proofs, k - 1) + last
  }

  lemma KeysOfConcat(a: seq<Entry>, b: seq<Entry>)
    ensures Keys(a + b) == Keys(a) + Keys(b)
  {
  }

  lemma {:induction false} BitEntriesKeys(bits: seq<bool>, dataRoot: Root, payload: Payload, k: nat, key: SignatureKey)
    requires k <= |bits|
    ensures key in Keys(BitEntries(bits, dataRoot, payload, k))
       <==> key.dataRoot == dataRoot && key.validator < k && bits[key.validator]
  {
    if k > 0 {
      var last := if bits[k - 1] then [Entry(SignatureKey(k - 1, dataRoot), payload)] else [];
      BitEntriesKeys(bits, dataRoot, payload, k - 1, key);
      KeysOfConcat(BitEntries(bits, dataRoot, payload, k - 1), last);
      assert Keys(last) == if bits[k - 1] then {SignatureKey(k - 1, dataRoot)} else {};
    }
  }

  predicate CastsVote(H: Hasher, att: AggregatedAttestation, key: SignatureKey) {
    H.data(att.data) == key.dataRoot && key.validator < |att.bits| && att.bits[key.validator]
  }

  ghost predicate VoteInBody(H: Hasher, body: Body, k: nat, key: SignatureKey)
    requires k <= |body|
  {
    exists j :: 0 <= j < k && CastsVote(H, body[j], key)
  }

  /** A body contributes exactly the votes of the validators whose bits are set in it. */
  lemma {:induction false} BodyEntriesKeys(H: Hasher, body: Body, proofs: seq<seq<bool>>, k: nat, key: SignatureKey)
    requires k <= |body| && k <= |proofs|
    ensures key in Keys(BodyEntries(H, body, proofs, k)) <==> VoteInBody(H, body, k, key)
  {
    if k > 0 {
      var att := body[k - 1];
      var payload := Payload(att.data.slot, proofs[k - 1]);
      BodyEntriesKeys(H, body, proofs, k - 1, key);
      BitEntriesKeys(att.bits, H.data(att.data), payload, |att.bits|, key);
      KeysOfConcat(BodyEntries(H, body, proofs, k - 1), BitEntries(att.bits, H.data(att.data), payload, |att.bits|));
      assert VoteInBody(H, body, k, key) <==> VoteInBody(H, body, k - 1, key) || CastsVote(H, att, key);
    }
  }

  function BodyData(H: Hasher, body: Body, k: nat): map<Root, AttestationData>
    requires k <= |body|
  {
    if k == 0 then map[] else BodyData(H, body, k - 1)[H.data(body[k - 1].data) := body[k - 1].data]
  }

  function Min(a: nat, b: nat): nat { if a <= b then a else b }

  function RecordVotes(H: Hasher, s: Store, sb: SignedBlock): Store {
    var k := Min(|sb.block.body|, |sb.proofs|);
    s.(data := s.data + BodyData(H, sb.block.body, k)[H.data(sb.proposerVote.data) := sb.proposerVote.data],
       knownPayloads := Newest(s.knownPayloads + BodyEntries(H, sb.block.body, sb.proofs, k), AGGREGATED_PAYLOAD_CAP))
  }

  /** The bits of a single validator. */
  function SoleBit(v: ValidatorIndex): seq<bool> { seq(v, _ => false) + [true] }

  /** The proposer's vote counts only after the head was updated, and only where signatures are not checked. */
  function RecordProposer(H: Hasher, s: Store, sb: SignedBlock, verify: bool): Store {
    var vote := sb.proposerVote;
    if verify then s
    else s.(newPayloads := Newest(s.newPayloads
                + [Entry(SignatureKey(vote.validator, H.data(vote.data)),
                         Payload(vote.data.slot, SoleBit(vote.validator)))],
                NEW_PAYLOAD_CAP))
  }

  /** Everything an imported block changes before the head is recomputed. */
  function ImportBlock(H: Hasher, s: Store, sb: SignedBlock, post: State): Store {
    var t := UpdateCheckpoints(s, s.head, IfHigher(post.justified, s.justified), IfHigher(post.finalized, s.finalized));
    RecordVotes(H, InsertBlock(H, t, sb, post), sb)
  }

  datatype StoreError =
    | MissingParentState(parentRoot: Root, slot: Slot)
    | StateTransitionFailed(error: T.Error)
    | AttestationSignatureMismatch(signatures: nat, attestations: nat)
    | ParticipantsMismatch
    | InvalidValidatorIndex
    | PubkeyDecodingFailed(keyOf: ValidatorIndex)
    | AggregateVerificationFailed
    | ProposerAttestationMismatch(attestationId: ValidatorIndex, proposerIndex: ValidatorIndex)
    | ProposerSignatureDecodingFailed
    | ProposerSignatureVerificationFailed
    | SignatureDecodingFailed
    | SignatureVerificationFailed
    | UnknownSourceBlock(source: Root) | UnknownTargetBlock(target: Root) | UnknownHeadBlock(head: Root)
    | SourceExceedsTarget | HeadOlderThanTarget(headSlot: Slot, targetSlot: Slot)
    | SourceSlotMismatch(checkpointSlot: Slot, blockSlot: Slot)
    | TargetSlotMismatch(checkpointSlot: Slot, blockSlot: Slot)
    | HeadSlotMismatch(checkpointSlot: Slot, blockSlot: Slot)
    | AttestationTooFarInFuture(attestationSlot: Slot, currentSlot: Slot)
    | MissingTargetState(stateOf: Root)

  // Signatures

  /** The answers of the signature library for one message: which public keys decode, which of its
      aggregated proofs verify, and the same for its one plain signature. */
  datatype Crypto = Crypto(keyDecodes: nat -> bool, proofVerifies: nat -> bool, signatureDecodes: bool,
                           signatureVerifies: bool)

  /** Every set bit belongs to one of `n` validators. */
  predicate WithinRegistry(bits: seq<bool>, n: nat) {
    forall v :: n <= v < |bits| ==> !bits[v]
  }

  /** The first participant from `k` on whose key does not decode. */
  function FirstBadKey(validators: seq<Validator>, bits: seq<bool>, crypto: Crypto, k: nat): Option<ValidatorIndex>
    requires WithinRegistry(bits, |validators|)
    decreases |bits| - k
  {
    if k >= |bits| then None
    else if bits[k] && !crypto.keyDecodes(validators[k].pubkey) then Some(k)
    else FirstBadKey(validators, bits, crypto, k + 1)
  }

  /** The checks on one aggregated proof, the `i`-th of its message. */
  function CheckProof(validators: seq<Validator>, proof: seq<bool>, i: nat, crypto: Crypto): Option<StoreError> {
    if !WithinRegistry(proof, |validators|) then Some(InvalidValidatorIndex)
    else
      match FirstBadKey(validators, proof, crypto, 0)
      case Some(v) => Some(PubkeyDecodingFailed(v))
      case None => if crypto.proofVerifies(i) then None else Some(AggregateVerificationFailed)
  }

  /** The first failing check among the attestations from `k` on. */
  function CheckProofs(validators: seq<Validator>, body: Body, proofs: seq<seq<bool>>, crypto: Crypto,
                       k: nat): Option<StoreError>
    requires |body| == |proofs|
    decreases |body| - k
  {
    if k >= |body| then None
    else if body[k].bits != proofs[k] then Some(ParticipantsMismatch)
    else
      var e := CheckProof(validators, proofs[k], k, crypto);
      if e.Some? then e else CheckProofs(validators, body, proofs, crypto, k + 1)
  }

  function CheckProposer(validators: seq<Validator>, sb: SignedBlock, crypto: Crypto): Option<StoreError> {
    var proposer := sb.block.proposer;
    if sb.proposerVote.validator != proposer then Some(ProposerAttestationMismatch(sb.proposerVote.validator, proposer))
    else if !crypto.signatureDecodes then Some(ProposerSignatureDecodingFailed)
    else if proposer >= |validators| then Some(InvalidValidatorIndex)
    else if !crypto.keyDecodes(validators[proposer].pubkey) then Some(PubkeyDecodingFailed(validators[proposer].index))
    else if !crypto.signatureVerifies then Some(ProposerSignatureVerificationFailed)
    else None
  }

  /** Why a block's signatures are refused, if they are. */
  function CheckSignatures(validators: seq<Validator>, sb: SignedBlock, crypto: Crypto): Option<StoreError> {
    if |sb.block.body| != |sb.proofs| then Some(AttestationSignatureMismatch(|sb.proofs|, |sb.block.body|))
    else
      var e := CheckProofs(validators, sb.block.body, sb.proofs, crypto, 0);
      if e.Some? then e else CheckProposer(validators, sb, crypto)
  }

  /** What verification establishes besides the signatures: one proof per attestation with the same
      participants, all of them validators, and a vote by the proposer. */
  predicate SignaturesMatch(sb: SignedBlock, n: nat) {
    && |sb.block.body| == |sb.proofs|
    && (forall i :: 0 <= i < |sb.proofs| ==> sb.block.body[i].bits == sb.proofs[i] && WithinRegistry(sb.proofs[i], n))
    && sb.proposerVote.validator == sb.block.proposer < n
  }

  /** The keys of all participants decode. */
  predicate KeysDecode(validators: seq<Validator>, bits: seq<bool>, crypto: Crypto) {
    forall v :: 0 <= v < |bits| && v < |validators| && bits[v] ==> crypto.keyDecodes(validators[v].pubkey)
  }

  /** Every signature of the block is valid by the library's answers. */
  ghost predicate AllVerify(validators: seq<Validator>, sb: SignedBlock, crypto: Crypto) {
    && (forall i {:trigger crypto.proofVerifies(i)} :: 0 <= i < |sb.proofs| ==> crypto.proofVerifies(i))
    && (forall i :: 0 <= i < |sb.proofs| ==> KeysDecode(validators, sb.proofs[i], crypto))
    && crypto.signatureDecodes && crypto.signatureVerifies
    && (sb.block.proposer < |validators| ==> crypto.keyDecodes(validators[sb.block.proposer].pubkey))
  }

  lemma {:induction false} BadKeyIff(validators: seq<Validator>, bits: seq<bool>, crypto: Crypto, k: nat)
    requires WithinRegistry(bits, |validators|) && k <= |bits|
    ensures FirstBadKey(validators, bits, crypto, k).None?
       <==> forall v :: k <= v < |bits| && bits[v] ==> crypto.keyDecodes(validators[v].pubkey)
    decreases |bits| - k
  {
    if k < |bits| {
      BadKeyIff(validators, bits, crypto, k + 1);
    }
  }

  lemma {:induction false} ProofsPassIff(validators: seq<Validator>, body: Body, proofs: seq<seq<bool>>,
                                         crypto: Crypto, k: nat)
    requires |body| == |proofs| && k <= |body|
    ensures CheckProofs(validators, body, proofs, crypto, k).None?
       <==> forall i :: k <= i < |body| ==>
              && body[i].bits == proofs[i] && WithinRegistry(proofs[i], |validators|)
              && KeysDecode(validators, proofs[i], crypto) && crypto.proofVerifies(i)
    decreases |body| - k
  {
    if k < |body| {
      ProofsPassIff(validators, body, proofs, crypto, k + 1);
      if WithinRegistry(proofs[k], |validators|) {
        BadKeyIff(validators, proofs[k], crypto, 0);
      }
    }
  }

  /** Verification passes exactly when the block is well formed and every signature is valid. */
  lemma SignaturesPassIff(validators: seq<Validator>, sb: SignedBlock, crypto: Crypto)
    ensures CheckSignatures(validators, sb, crypto).None?
       <==> SignaturesMatch(sb, |validators|) && AllVerify(validators, sb, crypto)
  {
    if |sb.block.body| == |sb.proofs| {
      ProofsPassIff(validators, sb.block.body, sb.proofs, crypto, 0);
    }
  }

  /** The outcome of importing a block: nothing to do, a new state, or an error. */
  ghost function BlockOutcome(H: Hasher, s: Store, sb: SignedBlock, verify: bool,
                              crypto: Crypto): Result<Option<State>, StoreError> {
    var b := sb.block;
    if BlockRoot(H, b) in s.states then Ok(None)
    else if b.parentRoot !in s.states then Err(MissingParentState(b.parentRoot, b.slot))
    else
      var parent := s.states[b.parentRoot];
      var e := if verify then CheckSignatures(parent.validators, sb, crypto) else None;
      if e.Some? then Err(e.value)
      else
        match T.StateTransition(H, parent, b)
        case Err(error) => Err(StateTransitionFailed(error))
        case Ok(post) => Ok(Some(Seal(post, b)))
  }

  /** A post-state with its block's state root filled in. */
  function Seal(post: State, b: Block): State { post.(header := post.header.(stateRoot := b.stateRoot)) }

  // Time

  function Interval(time: nat): nat { time % INTERVALS_PER_SLOT }

  /** All new payloads become known, and the head is chosen by some latest votes among them. */
  ghost predicate Accepts(s: Store, s': Store)
    requires SlotIncreasing(s.live)
  {
    exists votes :: HeadVotes(Promote(s), votes) && s' == AcceptNew(s, votes)
  }

  ghost predicate MovesSafeTarget(s: Store, s': Store)
    requires SlotIncreasing(s.live) && s.head in s.states
  {
    exists votes :: SafeVotes(s, votes) && s' == UpdateSafeTarget(s, votes)
  }

  /** The work of the interval that the clock of `s` is at. `aggregates` are the payloads an aggregator adds in
      the aggregation interval. */
  ghost predicate Phase(s: Store, signal: bool, aggregates: seq<Entry>, s': Store)
    requires SlotIncreasing(s.live) && s.head in s.states
  {
    match Interval(s.time)
    case 0 => if signal then Accepts(s, s') else s' == s
    case 1 => s' == s
    case 2 => s' == s.(newPayloads := Newest(s.newPayloads + aggregates, NEW_PAYLOAD_CAP))
    case 3 => MovesSafeTarget(s, s')
    case _ => Accepts(s, s')
  }

  // Gossip

  function ValidateAttestationData(s: Store, d: AttestationData): Option<StoreError> {
    if d.source.root !in s.headers then Some(UnknownSourceBlock(d.source.root))
    else if d.target.root !in s.headers then Some(UnknownTargetBlock(d.target.root))
    else if d.head.root !in s.headers then Some(UnknownHeadBlock(d.head.root))
    else if d.source.slot > d.target.slot then Some(SourceExceedsTarget)
    else if d.head.slot < d.target.slot then Some(HeadOlderThanTarget(d.head.slot, d.target.slot))
    else if s.headers[d.source.root].slot != d.source.slot
    then Some(SourceSlotMismatch(d.source.slot, s.headers[d.source.root].slot))
    else if s.headers[d.target.root].slot != d.target.slot
    then Some(TargetSlotMismatch(d.target.slot, s.headers[d.target.root].slot))
    else if s.headers[d.head.root].slot != d.head.slot
    then Some(HeadSlotMismatch(d.head.slot, s.headers[d.head.root].slot))
    else if d.slot > s.time / INTERVALS_PER_SLOT + 1
    then Some(AttestationTooFarInFuture(d.slot, s.time / INTERVALS_PER_SLOT))
    else None
  }

  /** Why a single gossiped vote is refused, if it is. */
  function GossipVoteOutcome(s: Store, vote: ValidatorVote, crypto: Crypto): Option<StoreError> {
    var e := ValidateAttestationData(s, vote.data);
    if e.Some? then e
    else if vote.data.target.root !in s.states then Some(MissingTargetState(vote.data.target.root))
    else
      var validators := s.states[vote.data.target.root].validators;
      if vote.validator >= |validators| then Some(InvalidValidatorIndex)
      else if !crypto.keyDecodes(validators[vote.validator].pubkey) then Some(PubkeyDecodingFailed(vote.validator))
      else if !crypto.signatureDecodes then Some(SignatureDecodingFailed)
      else if !crypto.signatureVerifies then Some(SignatureVerificationFailed)
      else None
  }

  /** Its data is stored under its root; its signature waits for aggregation. */
  function StoreVote(H: Hasher, s: Store, d: AttestationData): Store {
    s.(data := s.data[H.data(d) := d])
  }

  /** Why a gossiped aggregated vote is refused, if it is. */
  function GossipOutcome(s: Store, d: AttestationData, proof: seq<bool>, crypto: Crypto): Option<StoreError> {
    var e := ValidateAttestationData(s, d);
    if e.Some? then e
    else if d.target.root !in s.states then Some(MissingTargetState(d.target.root))
    else CheckProof(s.states[d.target.root].validators, proof, 0, crypto)
  }

  /** A verified aggregated vote: its data is stored, and one entry per participant waits for promotion. */
  function Gossip(H: Hasher, s: Store, d: AttestationData, proof: seq<bool>): Store {
    s.(data := s.data[H.data(d) := d],
       newPayloads := Newest(s.newPayloads + BitEntries(proof, H.data(d), Payload(d.slot, proof), |proof|),
                             NEW_PAYLOAD_CAP))
  }

  /** A block stored while its parent is missing: its header is there, the fork choice does not see it. */
  function StorePending(H: Hasher, s: Store, b: Block): Store {
    s.(headers := s.headers[BlockRoot(H, b) := HeaderOf(H, b)])
  }
}
