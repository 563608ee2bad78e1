/** What every handler keeps true of the fork-choice store, and what that means over whole runs. */
module StoreSafety {
  import opened Types
  import opened ForkChoice
  import opened Payloads
  import opened Store
  import opened Bookkeeping
  import T = Transition

  /** Ancestors recorded at or above slot `from` are known states at their recorded slot. */
  ghost predicate HistoryKnown(states: map<Root, State>, from: Slot, history: seq<Root>) {
    forall t: Slot :: from <= t < |history| && history[t] != ZERO ==>
      history[t] in states && states[history[t]].header.slot == t
  }

  ghost predicate ParentLinked(states: map<Root, State>, a: Root, r: Root)
    requires a in states && r in states
  {
    var h := states[r].header;
    r != a ==> h.parentRoot in states && states[h.parentRoot].header.slot < h.slot && states[a].header.slot < h.slot
  }

  /** A stored state: filed under its own block root, within the invariant, linked to its parent. */
  ghost predicate NodeSound(H: Hasher, a: Root, states: map<Root, State>, r: Root)
    requires a in states && r in states
  {
    var s := states[r];
    && H.header(s.header) == r && s.header.stateRoot != ZERO
    && Inv(H, s)
    && s.validators == states[a].validators
    && ParentLinked(states, a, r)
    && HistoryKnown(states, states[a].header.slot, s.history)
  }

  ghost predicate StatesSound(H: Hasher, a: Root, states: map<Root, State>) {
    a in states && forall r {:trigger NodeSound(H, a, states, r)} :: r in states ==> NodeSound(H, a, states, r)
  }

  ghost predicate HeadersSound(s: Store) {
    forall r :: r in s.states ==> r in s.headers && s.headers[r] == s.states[r].header
  }

  /** The live index holds stored blocks, and every one from the finalized slot on. */
  ghost predicate LiveSound(s: Store) {
    && (forall r :: r in s.live ==> r in s.states && s.live[r] == RefOf(s.states[r].header))
    && (forall r :: r in s.states && s.states[r].header.slot >= s.finalized.slot ==> r in s.live)
  }

  ghost predicate KnownAt(s: Store, c: Checkpoint) {
    c.root in s.states && s.states[c.root].header.slot == c.slot
  }

  ghost predicate CheckpointsKnown(a: Root, s: Store)
    requires a in s.states
  {
    && KnownAt(s, s.justified) && KnownAt(s, s.finalized)
    && s.states[a].header.slot <= s.finalized.slot <= s.justified.slot
    && s.safeTarget in s.states
  }

  ghost predicate BuffersSound(s: Store) {
    |s.newPayloads| <= NEW_PAYLOAD_CAP && |s.knownPayloads| <= AGGREGATED_PAYLOAD_CAP
  }

  /** All of the invariant but the head, which is stale between importing a block and choosing a head. */
  ghost predicate CoreSound(H: Hasher, a: Root, s: Store) {
    && StatesSound(H, a, s.states) && HeadersSound(s) && LiveSound(s)
    && CheckpointsKnown(a, s) && BuffersSound(s)
  }

  lemma ParentOfAnchorIsOlder(H: Hasher, a: Root, states: map<Root, State>)
    requires CollisionFree(H) && StatesSound(H, a, states)
    ensures var p := states[a].header.parentRoot; p in states ==> states[p].header.slot < states[a].header.slot
  {
    var s := states[a];
    var p := s.header.parentRoot;
    assert NodeSound(H, a, states, a);
    if p in states {
      assert NodeSound(H, a, states, p);
      assert H.header(states[p].header) == p;
      if Settled(H, s) {
        var t: Slot :| t < |s.history| && s.history[t] == s.header.parentRoot && s.history[t] != ZERO;
        RootAtOneSlot(H, p, t, states[p].header.slot);
      }
    }
  }

  /** Slots strictly increase from parent to child in the live index. */
  lemma LiveIncreases(H: Hasher, a: Root, s: Store)
    requires CollisionFree(H) && StatesSound(H, a, s.states) && LiveSound(s)
    ensures SlotIncreasing(s.live)
  {
    ParentOfAnchorIsOlder(H, a, s.states);
    forall r: Root ensures LinkUp(s.live, r) {
      if r in s.live && s.live[r].parent in s.live {
        assert NodeSound(H, a, s.states, r);
      }
    }
  }

  ghost predicate HeadSound(s: Store) {
    && SlotIncreasing(s.live)
    && s.head in s.live && IsAncestor(s.live, s.justified.root, s.head)
  }

  ghost predicate StoreSound(H: Hasher, a: Root, s: Store) {
    CoreSound(H, a, s) && HeadSound(s)
  }

  // Choosing a head

  lemma JustifiedIsLive(H: Hasher, a: Root, s: Store)
    requires CoreSound(H, a, s)
    ensures s.justified.root in s.live && s.live[s.justified.root].slot == s.justified.slot
  {
  }

  lemma HeadChoiceSound(H: Hasher, a: Root, s: Store, votes: Votes, minScore: nat)
    requires CollisionFree(H) && CoreSound(H, a, s)
    ensures SlotIncreasing(s.live)
    ensures Head(s, votes, minScore) in s.live && IsAncestor(s.live, s.justified.root, Head(s, votes, minScore))
  {
    LiveIncreases(H, a, s);
    JustifiedIsLive(H, a, s);
    HeadDescends(s.live, votes, s.live[s.justified.root].slot, minScore, s.justified.root);
  }

  lemma UpdateHeadSound(H: Hasher, a: Root, s: Store, votes: Votes)
    requires CollisionFree(H) && CoreSound(H, a, s)
    ensures SlotIncreasing(s.live) && StoreSound(H, a, UpdateHead(s, votes))
  {
    HeadChoiceSound(H, a, s, votes, 0);
  }

  // Importing a block

  lemma SealedNode(H: Hasher, b: Block, parent: State, post: State)
    requires CollisionFree(H) && Inv(H, parent) && T.StateTransition(H, parent, b) == Ok(post)
    ensures var sealed := Seal(post, b);
            && sealed.header == HeaderOf(H, b) && sealed.header.stateRoot != ZERO
            && Inv(H, sealed) && Settled(H, sealed) && sealed.validators == parent.validators
            && parent.header.slot < b.slot
            && sealed.history == parent.history + [b.parentRoot] + T.EmptySlots(b.slot - parent.header.slot - 1)
  {
    BlockKeepsInv(H, parent, b);
    var sealed := Seal(post, b);
    SoundIgnoresRest(H, T.Unpack(post), sealed);
    var t: Slot :| t < |post.history| && post.history[t] == post.header.parentRoot && post.history[t] != ZERO;
    assert sealed.history[t] == sealed.header.parentRoot;
  }

  /** What importing leaves to know of the new state. */
  ghost predicate NewNode(H: Hasher, a: Root, states: map<Root, State>, b: Block, post: State) {
    && StatesSound(H, a, states)
    && BlockRoot(H, b) !in states && b.parentRoot in states
    && post.header == HeaderOf(H, b) && post.header.stateRoot != ZERO
    && Inv(H, post) && Settled(H, post) && post.validators == states[b.parentRoot].validators
    && states[b.parentRoot].header.slot < b.slot
    && post.history == states[b.parentRoot].history + [b.parentRoot]
                     + T.EmptySlots(b.slot - states[b.parentRoot].header.slot - 1)
  }

  lemma ImportedIsNewNode(H: Hasher, a: Root, s: Store, sb: SignedBlock, verify: bool, crypto: Crypto)
    requires CollisionFree(H) && StatesSound(H, a, s.states)
    requires BlockOutcome(H, s, sb, verify, crypto).Ok? && BlockOutcome(H, s, sb, verify, crypto).value.Some?
    ensures NewNode(H, a, s.states, sb.block, BlockOutcome(H, s, sb, verify, crypto).value.value)
  {
    var b := sb.block;
    assert NodeSound(H, a, s.states, b.parentRoot);
    SealedNode(H, b, s.states[b.parentRoot], T.StateTransition(H, s.states[b.parentRoot], b).value);
  }

  lemma HistoryKnownGrows(states: map<Root, State>, from: Slot, history: seq<Root>, p: Root, gap: nat)
    requires HistoryKnown(states, from, history) && p in states && states[p].header.slot == |history|
    ensures HistoryKnown(states, from, history + [p] + T.EmptySlots(gap))
  {
  }

  lemma NewHistoryKnown(H: Hasher, a: Root, states: map<Root, State>, b: Block, post: State)
    requires NewNode(H, a, states, b, post)
    ensures HistoryKnown(states, states[a].header.slot, post.history)
  {
    var p := states[b.parentRoot];
    assert NodeSound(H, a, states, b.parentRoot);
    HistoryKnownGrows(states, states[a].header.slot, p.history, b.parentRoot, b.slot - p.header.slot - 1);
  }

  lemma StatesGrow(H: Hasher, a: Root, states: map<Root, State>, b: Block, post: State)
    requires NewNode(H, a, states, b, post)
    ensures StatesSound(H, a, states[BlockRoot(H, b) := post])
  {
    var root := BlockRoot(H, b);
    var more := states[root := post];
    NewHistoryKnown(H, a, states, b, post);
    assert NodeSound(H, a, states, a) && NodeSound(H, a, states, b.parentRoot);
    forall r | r in more ensures NodeSound(H, a, more, r) {
      if r != root {
        assert NodeSound(H, a, states, r);
      }
    }
  }

  /** A checkpoint of the new state that lies above the anchor is a known state at its slot. */
  lemma CheckpointKnown(H: Hasher, a: Root, states: map<Root, State>, b: Block, post: State, c: Checkpoint)
    requires NewNode(H, a, states, b, post) && OnChain(post, c) && states[a].header.slot <= c.slot
    ensures c.root in states && states[c.root].header.slot == c.slot
  {
    NewHistoryKnown(H, a, states, b, post);
  }

  lemma BlockCheckpoints(H: Hasher, a: Root, s: Store, b: Block, post: State)
    requires CoreSound(H, a, s) && NewNode(H, a, s.states, b, post)
    ensures var t := UpdateCheckpoints(s, s.head, IfHigher(post.justified, s.justified),
                                       IfHigher(post.finalized, s.finalized));
            && CoreSound(H, a, t) && t.states == s.states
            && s.justified.slot <= t.justified.slot && s.finalized.slot <= t.finalized.slot
            && post.finalized.slot <= t.finalized.slot && post.justified.slot <= t.justified.slot
  {
    if post.justified.slot > s.justified.slot { CheckpointKnown(H, a, s.states, b, post, post.justified); }
    if post.finalized.slot > s.finalized.slot { CheckpointKnown(H, a, s.states, b, post, post.finalized); }
  }

  lemma InsertSound(H: Hasher, a: Root, s: Store, sb: SignedBlock, post: State)
    requires CoreSound(H, a, s) && NewNode(H, a, s.states, sb.block, post)
    ensures CoreSound(H, a, InsertBlock(H, s, sb, post))
  {
    StatesGrow(H, a, s.states, sb.block, post);
  }

  lemma RecordSound(H: Hasher, a: Root, s: Store, sb: SignedBlock)
    requires CoreSound(H, a, s)
    ensures CoreSound(H, a, RecordVotes(H, s, sb))
  {
  }

  lemma ImportSound(H: Hasher, a: Root, s: Store, sb: SignedBlock, post: State)
    requires CoreSound(H, a, s) && NewNode(H, a, s.states, sb.block, post)
    ensures var t := ImportBlock(H, s, sb, post);
            && CoreSound(H, a, t)
            && s.justified.slot <= t.justified.slot && s.finalized.slot <= t.finalized.slot
  {
    var c := UpdateCheckpoints(s, s.head, IfHigher(post.justified, s.justified), IfHigher(post.finalized, s.finalized));
    BlockCheckpoints(H, a, s, sb.block, post);
    InsertSound(H, a, c, sb, post);
    RecordSound(H, a, InsertBlock(H, c, sb, post), sb);
  }

  /** The stores within the invariant. */
  ghost function Sane(H: Hasher, a: Root): iset<Store> {
    iset s: Store | StoreSound(H, a, s)
  }

  lemma StaysSane(H: Hasher, a: Root, s: Store, time: nat, data: map<Root, AttestationData>, entries: seq<Entry>)
    requires s in Sane(H, a) && |entries| <= NEW_PAYLOAD_CAP
    ensures s.(time := time, data := data, newPayloads := entries) in Sane(H, a)
  {
  }

  // Steps

  lemma SaneFacts(H: Hasher, a: Root, s: Store)
    requires CollisionFree(H) && s in Sane(H, a)
    ensures s.justified.root != ZERO
    ensures SlotIncreasing(s.live) && s.head in s.states && s.head in s.live
    ensures IsAncestor(s.live, s.justified.root, s.head)
    ensures s.finalized.slot <= s.justified.slot
    ensures s.justified.root in s.live && s.live[s.justified.root].slot == s.justified.slot
    ensures |s.newPayloads| <= NEW_PAYLOAD_CAP && |s.knownPayloads| <= AGGREGATED_PAYLOAD_CAP
  {
    assert NodeSound(H, a, s.states, s.justified.root);
  }

  /** The store after an imported block, for some votes the head choice may have read. */
  ghost predicate BlockStep(H: Hasher, s: Store, sb: SignedBlock, verify: bool, crypto: Crypto, s': Store) {
    match BlockOutcome(H, s, sb, verify, crypto)
    case Err(_) => s' == s
    case Ok(None) => s' == s
    case Ok(Some(post)) =>
      var t := ImportBlock(H, s, sb, post);
      SlotIncreasing(t.live) &&
      exists votes :: HeadVotes(t, votes) && s' == RecordProposer(H, UpdateHead(t, votes), sb, verify)
  }

  /** The states after a block event: unchanged, or with the new post-state. */
  ghost function StatesAfter(H: Hasher, s: Store, sb: SignedBlock, verify: bool, crypto: Crypto): map<Root, State> {
    match BlockOutcome(H, s, sb, verify, crypto)
    case Ok(Some(post)) => s.states[BlockRoot(H, sb.block) := post]
    case _ => s.states
  }

  lemma BlockStepStates(H: Hasher, s: Store, sb: SignedBlock, verify: bool, crypto: Crypto, s': Store)
    requires BlockStep(H, s, sb, verify, crypto, s')
    ensures s'.states == StatesAfter(H, s, sb, verify, crypto)
  {
  }

  /** Importing a block keeps the invariant and moves neither checkpoint back. */
  lemma BlockStepSound(H: Hasher, a: Root, s: Store, sb: SignedBlock, verify: bool, crypto: Crypto, s': Store)
    requires CollisionFree(H) && s in Sane(H, a) && BlockStep(H, s, sb, verify, crypto, s')
    ensures s' in Sane(H, a)
    ensures s.justified.slot <= s'.justified.slot && s.finalized.slot <= s'.finalized.slot
  {
    var r := BlockOutcome(H, s, sb, verify, crypto);
    if r.Ok? && r.value.Some? {
      var t := ImportBlock(H, s, sb, r.value.value);
      var votes :| HeadVotes(t, votes) && s' == RecordProposer(H, UpdateHead(t, votes), sb, verify);
      ImportKeepsSane(H, a, s, sb, verify, crypto, votes);
      ProposerKeepsSane(H, a, UpdateHead(t, votes), sb, verify);
    }
  }

  lemma ProposerKeepsSane(H: Hasher, a: Root, s: Store, sb: SignedBlock, verify: bool)
    requires s in Sane(H, a) && |s.newPayloads| <= NEW_PAYLOAD_CAP
    ensures RecordProposer(H, s, sb, verify) in Sane(H, a)
  {
    StaysSane(H, a, s, s.time, s.data, RecordProposer(H, s, sb, verify).newPayloads);
  }

  lemma ImportKeepsSane(H: Hasher, a: Root, s: Store, sb: SignedBlock, verify: bool, crypto: Crypto, votes: Votes)
    requires CollisionFree(H) && s in Sane(H, a)
    requires BlockOutcome(H, s, sb, verify, crypto).Ok?
    requires BlockOutcome(H, s, sb, verify, crypto).value.Some?
    ensures var t := ImportBlock(H, s, sb, BlockOutcome(H, s, sb, verify, crypto).value.value);
            && SlotIncreasing(t.live) && UpdateHead(t, votes) in Sane(H, a)
            && s.justified.slot <= t.justified.slot && s.finalized.slot <= t.finalized.slot
            && |t.newPayloads| <= NEW_PAYLOAD_CAP
  {
    var post := BlockOutcome(H, s, sb, verify, crypto).value.value;
    ImportedIsNewNode(H, a, s, sb, verify, crypto);
    ImportSound(H, a, s, sb, post);
    UpdateHeadSound(H, a, ImportBlock(H, s, sb, post), votes);
  }

  function SetTime(s: Store, time: nat): Store { s.(time := time) }

  /** One tick: the clock moves on, then the work of the interval it has reached. */
  ghost predicate TickStep(s: Store, signal: bool, aggregates: seq<Entry>, s': Store) {
    SlotIncreasing(s.live) && s.head in s.states && Phase(SetTime(s, s.time + 1), signal, aggregates, s')
  }

  lemma PromoteSound(H: Hasher, a: Root, s: Store, s': Store)
    requires CollisionFree(H) && s in Sane(H, a) && SlotIncreasing(s.live) && Accepts(s, s')
    ensures s' in Sane(H, a)
  {
    var votes :| HeadVotes(Promote(s), votes) && s' == AcceptNew(s, votes);
    UpdateHeadSound(H, a, Promote(s), votes);
  }

  lemma WithSafeTarget(H: Hasher, a: Root, s: Store, r: Root)
    requires s in Sane(H, a) && r in s.live
    ensures s.(safeTarget := r) in Sane(H, a)
  {
  }

  lemma SafeTargetSound(H: Hasher, a: Root, s: Store, s': Store)
    requires CollisionFree(H) && s in Sane(H, a) && SlotIncreasing(s.live) && s.head in s.states
    requires MovesSafeTarget(s, s')
    ensures s' in Sane(H, a)
  {
    var votes :| SafeVotes(s, votes) && s' == UpdateSafeTarget(s, votes);
    HeadChoiceSound(H, a, s, votes, TwoThirds(|s.states[s.head].validators|));
    WithSafeTarget(H, a, s, s'.safeTarget);
  }

  lemma PhaseLeaves(s: Store, signal: bool, aggregates: seq<Entry>, s': Store)
    requires SlotIncreasing(s.live) && s.head in s.states && Phase(s, signal, aggregates, s')
    ensures s'.justified == s.justified && s'.finalized == s.finalized
    ensures s'.states == s.states && s'.live == s.live && s'.time == s.time
  {
  }

  lemma PhaseSound(H: Hasher, a: Root, s: Store, signal: bool, aggregates: seq<Entry>, s': Store)
    requires CollisionFree(H) && s in Sane(H, a)
    requires SlotIncreasing(s.live) && s.head in s.states && Phase(s, signal, aggregates, s')
    ensures s' in Sane(H, a)
  {
    match Interval(s.time) {
      case 0 => if signal { PromoteSound(H, a, s, s'); }
      case 1 =>
      case 2 => StaysSane(H, a, s, s.time, s.data, Newest(s.newPayloads + aggregates, NEW_PAYLOAD_CAP));
      case 3 => SafeTargetSound(H, a, s, s');
      case _ => PromoteSound(H, a, s, s');
    }
  }

  /** A tick keeps the invariant and does not touch the checkpoints. */
  lemma TickStepSound(H: Hasher, a: Root, s: Store, signal: bool, aggregates: seq<Entry>, s': Store)
    requires CollisionFree(H) && s in Sane(H, a) && TickStep(s, signal, aggregates, s')
    ensures s' in Sane(H, a) && s'.justified == s.justified && s'.finalized == s.finalized
    ensures s'.states == s.states && s'.live == s.live && s'.time == s.time + 1
  {
    SaneFacts(H, a, s);
    StaysSane(H, a, s, s.time + 1, s.data, s.newPayloads);
    PhaseLeaves(SetTime(s, s.time + 1), signal, aggregates, s');
    PhaseSound(H, a, SetTime(s, s.time + 1), signal, aggregates, s');
  }

  /** Everything that can happen to the store. */
  datatype Input =
    | ReceiveBlock(sb: SignedBlock, verify: bool, crypto: Crypto)
    | Tick(signal: bool, aggregates: seq<Entry>)
    | Jump(time: nat)
    | ReceiveAggregate(data: AttestationData, proof: seq<bool>, crypto: Crypto)
    | ReceiveVote(vote: ValidatorVote, crypto: Crypto)
    | HoldBlock(block: Block)

  /** What one input leads to; a refused one leaves the store alone. */
  ghost predicate Handles(H: Hasher, s: Store, input: Input, s': Store) {
    match input
    case ReceiveBlock(sb, verify, crypto) => BlockStep(H, s, sb, verify, crypto, s')
    case Tick(signal, aggregates) => TickStep(s, signal, aggregates, s')
    case Jump(time) => time >= s.time && s' == SetTime(s, time)
    case ReceiveAggregate(d, proof, crypto) =>
      s' == if GossipOutcome(s, d, proof, crypto).None? then Gossip(H, s, d, proof) else s
    case ReceiveVote(vote, crypto) =>
      s' == if GossipVoteOutcome(s, vote, crypto).None? then StoreVote(H, s, vote.data) else s
    case HoldBlock(b) => s' == StorePending(H, s, b)
  }

  ghost predicate Step(H: Hasher, s: Store, s': Store) {
    exists input :: Handles(H, s, input, s')
  }

  lemma WithHeaders(H: Hasher, a: Root, s: Store, headers: map<Root, Header>)
    requires s in Sane(H, a)
    requires forall r :: r in s.states ==> r in headers && headers[r] == s.states[r].header
    ensures s.(headers := headers) in Sane(H, a)
  {
  }

  lemma PendingSound(H: Hasher, a: Root, s: Store, b: Block)
    requires CollisionFree(H) && s in Sane(H, a)
    ensures StorePending(H, s, b) in Sane(H, a)
  {
    var root := BlockRoot(H, b);
    if root in s.states {
      assert NodeSound(H, a, s.states, root);
    }
    WithHeaders(H, a, s, s.headers[root := HeaderOf(H, b)]);
  }

  lemma VoteSound(H: Hasher, a: Root, s: Store, d: AttestationData, proof: seq<bool>)
    requires s in Sane(H, a)
    ensures Gossip(H, s, d, proof) in Sane(H, a) && StoreVote(H, s, d) in Sane(H, a)
  {
    assert |s.newPayloads| <= NEW_PAYLOAD_CAP;
    StaysSane(H, a, s, s.time, s.data[H.data(d) := d], Gossip(H, s, d, proof).newPayloads);
    StaysSane(H, a, s, s.time, s.data[H.data(d) := d], s.newPayloads);
  }

  lemma JumpSound(H: Hasher, a: Root, s: Store, time: nat)
    requires s in Sane(H, a)
    ensures SetTime(s, time) in Sane(H, a)
  {
    assert |s.newPayloads| <= NEW_PAYLOAD_CAP;
    StaysSane(H, a, s, time, s.data, s.newPayloads);
  }

  /** Every input keeps the invariant. */
  lemma InputSound(H: Hasher, a: Root, s: Store, input: Input, s': Store)
    requires CollisionFree(H) && s in Sane(H, a) && Handles(H, s, input, s')
    ensures s' in Sane(H, a)
  {
    match input
    case ReceiveBlock(sb, verify, crypto) => BlockStepSound(H, a, s, sb, verify, crypto, s');
    case Tick(signal, aggregates) => TickStepSound(H, a, s, signal, aggregates, s');
    case Jump(time) => JumpSound(H, a, s, time);
    case ReceiveAggregate(d, proof, _) => VoteSound(H, a, s, d, proof);
    case ReceiveVote(vote, _) => VoteSound(H, a, s, vote.data, []);
    case HoldBlock(b) => PendingSound(H, a, s, b);
  }

  /** No input moves a checkpoint back. */
  lemma InputAdvances(H: Hasher, a: Root, s: Store, input: Input, s': Store)
    requires CollisionFree(H) && s in Sane(H, a) && Handles(H, s, input, s')
    ensures s.justified.slot <= s'.justified.slot && s.finalized.slot <= s'.finalized.slot
  {
    match input
    case ReceiveBlock(sb, verify, crypto) => BlockStepSound(H, a, s, sb, verify, crypto, s');
    case Tick(signal, aggregates) => TickStepSound(H, a, s, signal, aggregates, s');
    case _ =>
  }

  /** The states an input leaves: with the new block's, or as they were. */
  lemma InputStates(H: Hasher, a: Root, s: Store, input: Input, s': Store)
    requires CollisionFree(H) && s in Sane(H, a) && Handles(H, s, input, s')
    ensures match input
            case ReceiveBlock(sb, verify, crypto) => s'.states == StatesAfter(H, s, sb, verify, crypto)
            case _ => s'.states == s.states
  {
    match input
    case ReceiveBlock(sb, verify, crypto) => BlockStepStates(H, s, sb, verify, crypto, s');
    case Tick(signal, aggregates) => TickStepSound(H, a, s, signal, aggregates, s');
    case _ =>
  }

  lemma StepSound(H: Hasher, a: Root, s: Store, s': Store)
    requires CollisionFree(H) && s in Sane(H, a) && Step(H, s, s')
    ensures s' in Sane(H, a)
    ensures s.justified.slot <= s'.justified.slot && s.finalized.slot <= s'.finalized.slot
  {
    var input :| Handles(H, s, input, s');
    InputSound(H, a, s, input, s');
    InputAdvances(H, a, s, input, s');
  }

  // Runs

  lemma AnchorSound(H: Hasher, anchor: State)
    requires CollisionFree(H) && Inv(H, anchor)
    ensures InitStore(H, anchor) in Sane(H, InitStore(H, anchor).head)
  {
    var s := SealAnchor(H, anchor);
    var store := InitStore(H, anchor);
    var a := store.head;
    if Settled(H, anchor) {
      SoundIgnoresRest(H, T.Unpack(anchor), s);
      var t: Slot :| t < |anchor.history| && anchor.history[t] == anchor.header.parentRoot && anchor.history[t] != ZERO;
      assert s.history[t] == s.header.parentRoot;
    }
    assert Inv(H, s);
    forall r | r in store.states ensures NodeSound(H, a, store.states, r) {
    }
    LiveIncreases(H, a, store);
  }

  /** A run: consecutive stores, each one step after the other. */
  ghost predicate IsRun(H: Hasher, trace: seq<Store>) {
    trace != [] && forall i, j :: 0 <= i && j == i + 1 < |trace| ==> Step(H, trace[i], trace[j])
  }

  /** Over every run from an anchor, at every point: the invariant holds, neither checkpoint's slot ever
      decreases, finality does not overtake justification, the justified block stays in the live index
      at its slot, and the head is the justified block or descends from it. */
  lemma {:induction false} StoreSafe(H: Hasher, anchor: State, trace: seq<Store>, i: nat, j: nat)
    requires CollisionFree(H) && Inv(H, anchor)
    requires IsRun(H, trace) && trace[0] == InitStore(H, anchor)
    requires i <= j < |trace|
    ensures trace[j] in Sane(H, InitStore(H, anchor).head)
    ensures trace[i].justified.slot <= trace[j].justified.slot
    ensures trace[i].finalized.slot <= trace[j].finalized.slot <= trace[j].justified.slot
    ensures SlotIncreasing(trace[j].live)
    ensures trace[j].justified.root in trace[j].live
    ensures trace[j].live[trace[j].justified.root].slot == trace[j].justified.slot
    ensures trace[j].head in trace[j].live && IsAncestor(trace[j].live, trace[j].justified.root, trace[j].head)
    decreases j
  {
    var a := InitStore(H, anchor).head;
    if j == 0 {
      AnchorSound(H, anchor);
    } else {
      StoreSafe(H, anchor, trace, if i < j then i else i - 1, j - 1);
      StepSound(H, a, trace[j - 1], trace[j]);
    }
    SaneFacts(H, a, trace[j]);
  }
}
