/** The 3SF-mini state transition as functions on values. The class in Machine.dfy computes the same
    results in place; the run theorems are about these functions. */
module Transition {
  import opened Types
  import opened Justifiability
  import opened JustifiedSlots
  import opened VoteMatrix

  datatype Error =
    | StateSlotIsNewer(target: Slot, current: Slot)
    | SlotMismatch(stateSlot: Slot, blockSlot: Slot)
    | ParentSlotIsNewer(parentSlot: Slot, blockSlot: Slot)
    | InvalidProposer(expectedIndex: ValidatorIndex, foundIndex: ValidatorIndex)
    | InvalidParent(expectedRoot: Root, foundRoot: Root)
    | NoValidators
    | StateRootMismatch(expectedState: Root, computedState: Root)
    | SlotGapTooLarge(gap: nat, currentLength: nat, max: nat)
    | ZeroHashInJustificationRoots

  function EmptyBodyHeader(H: Hasher): Header {
    Header(0, 0, ZERO, ZERO, H.body([]))
  }

  function Genesis(H: Hasher, genesisTime: nat, validators: seq<Validator>): State {
    State(genesisTime, 0, EmptyBodyHeader(H), Checkpoint(ZERO, 0), Checkpoint(ZERO, 0), [], [], validators, [], [])
  }

  // Slots

  function ProcessSlots(H: Hasher, s: State, target: Slot): Result<State, Error> {
    if s.slot >= target then Err(StateSlotIsNewer(target, s.slot))
    else Ok(CacheStateRoot(H, s).(slot := target))
  }

  function CacheStateRoot(H: Hasher, s: State): State {
    if s.header.stateRoot == ZERO then s.(header := s.header.(stateRoot := H.state(s))) else s
  }

  // Header

  function CurrentProposer(slot: Slot, numValidators: nat): Option<ValidatorIndex> {
    if numValidators > 0 then Some(slot % numValidators) else None
  }

  /** The first block after genesis gives the genesis checkpoints their root. */
  function WithGenesisRoots(s: State, parentRoot: Root): State {
    if s.header.slot == 0
    then s.(justified := s.justified.(root := parentRoot), finalized := s.finalized.(root := parentRoot))
    else s
  }

  /** Slots without a block have a zero root. */
  function EmptySlots(n: nat): seq<Root> { seq(n, _ => ZERO) }

  function ProcessBlockHeader(H: Hasher, s: State, b: Block): Result<State, Error> {
    if b.slot != s.slot then Err(SlotMismatch(s.slot, b.slot))
    else if b.slot <= s.header.slot then Err(ParentSlotIsNewer(s.header.slot, b.slot))
    else
      match CurrentProposer(b.slot, |s.validators|)
      case None => Err(NoValidators)
      case Some(expected) =>
        if b.proposer != expected then Err(InvalidProposer(expected, b.proposer))
        else
          var parentRoot := H.header(s.header);
          if b.parentRoot != parentRoot then Err(InvalidParent(parentRoot, b.parentRoot))
          else
            var gap := b.slot - s.header.slot - 1;
            if |s.history| + 1 + gap > HISTORICAL_ROOTS_LIMIT
            then Err(SlotGapTooLarge(gap, |s.history|, HISTORICAL_ROOTS_LIMIT))
            else Ok(WithGenesisRoots(s, parentRoot).(
                      history := s.history + [parentRoot] + EmptySlots(gap),
                      window := ExtendTo(s.window, s.finalized.slot, b.slot - 1),
                      header := HeaderOf(H, b).(stateRoot := ZERO)))
  }

  // Attestations

  predicate CheckpointExists(s: State, c: Checkpoint) {
    c.slot < |s.history| && s.history[c.slot] == c.root
  }

  predicate IsValidVote(s: State, source: Checkpoint, target: Checkpoint) {
    && IsJustified(s.window, s.finalized.slot, source.slot)
    && !IsJustified(s.window, s.finalized.slot, target.slot)
    && source.root != ZERO && target.root != ZERO
    && CheckpointExists(s, source) && CheckpointExists(s, target)
    && source.slot < target.slot
    && JustifiableAfter(target.slot, s.finalized.slot)
  }

  /** The state being updated together with the in-memory vote map. */
  datatype Progress = Progress(state: State, tallies: Tallies)

  /** Latest slot of every root in `history[lo..hi]`. */
  function IndexSlots(history: seq<Root>, lo: nat, hi: nat): map<Root, Slot>
    requires hi <= |history|
  {
    if hi <= lo then map[] else IndexSlots(history, lo, hi - 1)[history[hi - 1] := hi - 1]
  }

  function RecordVotes(votes: seq<bool>, bits: seq<bool>): (r: seq<bool>)
    ensures |r| == |votes|
  {
    seq(|votes|, i requires 0 <= i < |votes| => votes[i] || (i < |bits| && bits[i]))
  }

  predicate JustifiableBetween(lo: Slot, hi: Slot, finalized: Slot) {
    exists t :: lo < t < hi && JustifiableAfter(t, finalized)
  }

  /** The tallies whose root lies above `slot`; a root the index does not know is dropped. */
  function KeepAbove(tallies: Tallies, slotOf: map<Root, Slot>, slot: Slot): Tallies {
    map r | r in tallies && r in slotOf && slotOf[r] > slot :: tallies[r]
  }

  function TryFinalize(p: Progress, slotOf: map<Root, Slot>, source: Checkpoint, target: Checkpoint): Progress {
    var s := p.state;
    if JustifiableBetween(source.slot, target.slot, s.finalized.slot) then p
    else
      var delta := if source.slot >= s.finalized.slot then source.slot - s.finalized.slot else 0;
      Progress(s.(finalized := source, window := Shift(s.window, delta)),
               KeepAbove(p.tallies, slotOf, source.slot))
  }

  function TallyOf(p: Progress, root: Root): seq<bool> {
    if root in p.tallies then p.tallies[root] else seq(|p.state.validators|, _ => false)
  }

  function Justify(p: Progress, target: Checkpoint): Progress {
    var s := p.state;
    Progress(s.(justified := target, window := SetJustified(s.window, s.finalized.slot, target.slot)),
             p.tallies - {target.root})
  }

  function ProcessAttestation(p: Progress, slotOf: map<Root, Slot>, att: AggregatedAttestation): Progress {
    var n := |p.state.validators|;
    var source, target := att.data.source, att.data.target;
    if !IsValidVote(p.state, source, target) then p
    else if |att.bits| > n then p.(tallies := p.tallies[target.root := TallyOf(p, target.root)])
    else
      var votes := RecordVotes(TallyOf(p, target.root), att.bits);
      if 3 * CountVotes(votes) < 2 * n then p.(tallies := p.tallies[target.root := votes])
      else TryFinalize(Justify(p, target), slotOf, source, target)
  }

  /** The first `k` attestations, in block order. */
  function ProcessPrefix(p: Progress, slotOf: map<Root, Slot>, atts: Body, k: nat): Progress
    requires k <= |atts|
  {
    if k == 0 then p else ProcessAttestation(ProcessPrefix(p, slotOf, atts, k - 1), slotOf, atts[k - 1])
  }

  function Unpack(s: State): Progress {
    Progress(s, Decode(s.tallyRoots, s.tallyVotes, |s.validators|))
  }

  ghost function Pack(p: Progress): State {
    var roots := Listing(p.tallies.Keys);
    p.state.(tallyRoots := roots, tallyVotes := Flatten(roots, p.tallies))
  }

  function SlotIndex(s: State): map<Root, Slot> {
    IndexSlots(s.history, s.finalized.slot + 1, |s.history|)
  }

  ghost function ProcessAttestations(s: State, atts: Body): Result<State, Error> {
    if ZERO in s.tallyRoots then Err(ZeroHashInJustificationRoots)
    else Ok(Pack(ProcessPrefix(Unpack(s), SlotIndex(s), atts, |atts|)))
  }

  // Blocks

  ghost function ProcessBlock(H: Hasher, s: State, b: Block): Result<State, Error> {
    match ProcessBlockHeader(H, s, b)
    case Err(e) => Err(e)
    case Ok(t) => ProcessAttestations(t, b.body)
  }

  /** Everything but the final state-root comparison. */
  ghost function ApplyBlock(H: Hasher, s: State, b: Block): Result<State, Error> {
    match ProcessSlots(H, s, b.slot)
    case Err(e) => Err(e)
    case Ok(t) => ProcessBlock(H, t, b)
  }

  ghost function StateTransition(H: Hasher, s: State, b: Block): Result<State, Error> {
    match ApplyBlock(H, s, b)
    case Err(e) => Err(e)
    case Ok(t) => if b.stateRoot != H.state(t) then Err(StateRootMismatch(b.stateRoot, H.state(t))) else Ok(t)
  }

  // The direct slot jump against the slot-by-slot loop it replaces.

  function NextSlot(H: Hasher, s: State): State {
    CacheStateRoot(H, s).(slot := s.slot + 1)
  }

  function SlotBySlot(H: Hasher, s: State, target: Slot): State
    decreases target - s.slot
  {
    if s.slot >= target then s else SlotBySlot(H, NextSlot(H, s), target)
  }

  lemma {:induction false} SlotJumpIsLoop(H: Hasher, s: State, target: Slot)
    requires forall t: State :: H.state(t) != ZERO
    requires s.slot < target
    ensures ProcessSlots(H, s, target) == Ok(SlotBySlot(H, s, target))
    decreases target - s.slot
  {
    var t := NextSlot(H, s);
    if t.slot < target {
      SlotJumpIsLoop(H, t, target);
    }
  }

  lemma HeaderSkipsStateRoot(H: Hasher, s: State, b: Block, root: Root)
    ensures ProcessBlockHeader(H, s, b.(stateRoot := root)) == ProcessBlockHeader(H, s, b)
  {
  }

  /** Block processing never reads the block's state root. */
  lemma StateRootUnread(H: Hasher, s: State, b: Block, root: Root)
    ensures ApplyBlock(H, s, b.(stateRoot := root)) == ApplyBlock(H, s, b)
  {
    var r := ProcessSlots(H, s, b.slot);
    if r.Ok? {
      HeaderSkipsStateRoot(H, r.value, b, root);
      assert ProcessBlock(H, r.value, b.(stateRoot := root)) == ProcessBlock(H, r.value, b);
    }
  }
}
