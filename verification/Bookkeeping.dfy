/** What block processing keeps true of a state, attestation by attestation and block by block. */
module Bookkeeping {
  import opened Types
  import opened Justifiability
  import opened JustifiedSlots
  import opened VoteMatrix
  import opened Transition

  /** A nonzero history entry is the root of a header at that slot. */
  ghost predicate Chain(H: Hasher, history: seq<Root>) {
    forall t: Slot :: t < |history| && history[t] != ZERO ==> IsRootAt(H, history[t], t)
  }

  predicate OnChain(s: State, c: Checkpoint) {
    CheckpointExists(s, c) && c.root != ZERO
  }

  predicate JustifiedAt(s: State, t: Slot) {
    IsJustified(s.window, s.finalized.slot, t)
  }

  ghost predicate CheckpointsSound(s: State) {
    && 0 < |s.history| <= HISTORICAL_ROOTS_LIMIT
    && 0 < |s.validators|
    && s.finalized.slot <= s.justified.slot < |s.history|
    && |s.window| == |s.history| - 1 - s.finalized.slot
    && OnChain(s, s.finalized) && OnChain(s, s.justified)
    && JustifiedAt(s, s.justified.slot)
    && forall t :: s.finalized.slot < t < |s.history| && JustifiedAt(s, t) ==> s.history[t] != ZERO
  }

  /** `r` is the block at the unfinalized, unjustified slot `t`. */
  ghost predicate PendingAt(s: State, r: Root, t: Slot) {
    s.finalized.slot < t < |s.history| && s.history[t] == r && !JustifiedAt(s, t)
  }

  ghost predicate TallySound(s: State, r: Root, votes: seq<bool>) {
    && r != ZERO
    && |votes| == |s.validators|
    && 3 * CountVotes(votes) < 2 * |s.validators|
    && exists t: Slot :: PendingAt(s, r, t)
  }

  ghost predicate TalliesSound(s: State, tallies: Tallies) {
    forall r :: r in tallies ==> TallySound(s, r, tallies[r])
  }

  ghost predicate Sound(H: Hasher, p: Progress) {
    Chain(H, p.state.history) && CheckpointsSound(p.state) && TalliesSound(p.state, p.tallies)
  }

  ghost function SoundOnes(H: Hasher): iset<Progress> {
    iset p: Progress | Sound(H, p)
  }

  /** The index was built from the history at or below the current finalized boundary. */
  ghost predicate Indexes(slotOf: map<Root, Slot>, s: State) {
    exists lo: nat :: lo <= s.finalized.slot + 1 && slotOf == IndexSlots(s.history, lo, |s.history|)
  }

  /** What one or more attestations may do to a state. */
  ghost predicate Advances(s: State, s': State) {
    && s' == s.(justified := s'.justified, finalized := s'.finalized, window := s'.window)
    && (s'.finalized == s.finalized || (s.finalized.slot < s'.finalized.slot && OnChain(s, s'.finalized)))
    && forall t: Slot :: JustifiedAt(s, t) ==> JustifiedAt(s', t)
  }

  lemma IndexesItself(s: State)
    ensures Indexes(SlotIndex(s), s)
  {
  }

  lemma {:induction false} IndexFinds(H: Hasher, history: seq<Root>, lo: nat, hi: nat, t: Slot)
    requires CollisionFree(H) && Chain(H, history)
    requires lo <= t < hi <= |history| && history[t] != ZERO
    ensures history[t] in IndexSlots(history, lo, hi) && IndexSlots(history, lo, hi)[history[t]] == t
  {
    if t < hi - 1 {
      IndexFinds(H, history, lo, hi - 1, t);
      if history[hi - 1] != ZERO {
        RootsDiffer(H, history[t], t, history[hi - 1], hi - 1);
      }
    }
  }

  /** Every pending root is found in the index at its slot, so pruning never meets a missing root. */
  lemma PendingIsIndexed(H: Hasher, s: State, slotOf: map<Root, Slot>, r: Root, t: Slot)
    requires CollisionFree(H) && Chain(H, s.history) && Indexes(slotOf, s)
    requires r != ZERO && PendingAt(s, r, t)
    ensures r in slotOf && slotOf[r] == t
  {
    var lo: nat :| lo <= s.finalized.slot + 1 && slotOf == IndexSlots(s.history, lo, |s.history|);
    IndexFinds(H, s.history, lo, |s.history|, t);
  }

  /** Pruning never meets a root that the index does not know. */
  lemma TalliesIndexed(H: Hasher, p: Progress, slotOf: map<Root, Slot>)
    requires CollisionFree(H) && p in SoundOnes(H) && Indexes(slotOf, p.state)
    ensures forall r :: r in p.tallies ==> r in slotOf
  {
    forall r | r in p.tallies ensures r in slotOf {
      assert TallySound(p.state, r, p.tallies[r]);
      var t: Slot :| PendingAt(p.state, r, t);
      PendingIsIndexed(H, p.state, slotOf, r, t);
    }
  }

  /** A root is pending at one slot only. */
  lemma PendingSlotUnique(H: Hasher, s: State, r: Root, t: Slot, u: Slot)
    requires CollisionFree(H) && Chain(H, s.history)
    requires r != ZERO && PendingAt(s, r, t) && PendingAt(s, r, u)
    ensures t == u
  {
  }

  /** A boundary move that succeeds never moves back: an old boundary strictly between source and
      target is itself justifiable and blocks the move. */
  lemma NoBackwardFinality(source: Slot, target: Slot, finalized: Slot)
    requires !JustifiableBetween(source, target, finalized)
    requires finalized < target
    ensures finalized <= source
  {
    if source < finalized {
      assert JustifiableAfter(finalized, finalized);
    }
  }

  lemma RecordSound(H: Hasher, p: Progress, source: Checkpoint, target: Checkpoint, votes: seq<bool>)
    requires Sound(H, p) && IsValidVote(p.state, source, target)
    requires |votes| == |p.state.validators| && 3 * CountVotes(votes) < 2 * |p.state.validators|
    ensures Sound(H, p.(tallies := p.tallies[target.root := votes]))
  {
    assert PendingAt(p.state, target.root, target.slot);
  }

  lemma TallyLength(H: Hasher, p: Progress, root: Root)
    requires Sound(H, p)
    ensures |TallyOf(p, root)| == |p.state.validators|
    ensures 3 * CountVotes(TallyOf(p, root)) < 2 * |p.state.validators|
  {
    if root !in p.tallies { CountNone(TallyOf(p, root)); }
  }

  lemma JustifySound(H: Hasher, p: Progress, source: Checkpoint, target: Checkpoint)
    requires Sound(H, p) && IsValidVote(p.state, source, target)
    ensures Settable(p.state.window, p.state.finalized.slot, target.slot)
    ensures Sound(H, Justify(p, target)) && Advances(p.state, Justify(p, target).state)
    ensures forall t: Slot :: JustifiedAt(Justify(p, target).state, t) <==> JustifiedAt(p.state, t) || t == target.slot
  {
    var s, s' := p.state, Justify(p, target).state;
    SetAddsOneSlot(s.window, s.finalized.slot, target.slot);
    forall t: Slot ensures JustifiedAt(s', t) <==> JustifiedAt(s, t) || t == target.slot {
      assert t in Slots(s'.window, s.finalized.slot) <==> t in Slots(s.window, s.finalized.slot) || t == target.slot;
    }
    forall r | r in p.tallies && r != target.root ensures TallySound(s', r, p.tallies[r]) {
      var t: Slot :| PendingAt(s, r, t);
      assert PendingAt(s', r, t);
    }
  }

  lemma ShiftSound(s: State, source: Checkpoint)
    requires CheckpointsSound(s) && OnChain(s, source) && JustifiedAt(s, source.slot)
    requires s.finalized.slot <= source.slot < s.justified.slot
    ensures var s' := s.(finalized := source, window := Shift(s.window, source.slot - s.finalized.slot));
            && CheckpointsSound(s') && Advances(s, s')
            && forall t: Slot :: JustifiedAt(s', t) <==> JustifiedAt(s, t) || t <= source.slot
  {
    var delta := source.slot - s.finalized.slot;
    var s' := s.(finalized := source, window := Shift(s.window, delta));
    ShiftMovesBoundary(s.window, s.finalized.slot, delta);
    forall t: Slot ensures JustifiedAt(s', t) <==> JustifiedAt(s, t) || t <= source.slot {
      assert t in Slots(s'.window, source.slot) <==> t in Slots(s.window, s.finalized.slot) || t <= source.slot;
    }
  }

  lemma FinalizeSound(H: Hasher, p: Progress, slotOf: map<Root, Slot>, source: Checkpoint)
    requires CollisionFree(H) && Sound(H, p) && Indexes(slotOf, p.state)
    requires OnChain(p.state, source) && JustifiedAt(p.state, source.slot)
    requires source.slot < p.state.justified.slot && p.state.finalized.slot < p.state.justified.slot
    ensures var p' := TryFinalize(p, slotOf, source, p.state.justified);
            && Sound(H, p') && Advances(p.state, p'.state)
            && (p'.state.finalized != p.state.finalized ==>
                  p'.state.finalized == source && p.state.finalized.slot < source.slot)
            && forall t: Slot :: JustifiedAt(p'.state, t) ==> JustifiedAt(p.state, t) || t <= p'.state.finalized.slot
  {
    var s := p.state;
    var p' := TryFinalize(p, slotOf, source, s.justified);
    if !JustifiableBetween(source.slot, s.justified.slot, s.finalized.slot) {
      NoBackwardFinality(source.slot, s.justified.slot, s.finalized.slot);
      ShiftSound(s, source);
      forall r | r in p'.tallies ensures TallySound(p'.state, r, p'.tallies[r]) {
        assert TallySound(s, r, p.tallies[r]);
        var t: Slot :| PendingAt(s, r, t);
        PendingIsIndexed(H, s, slotOf, r, t);
        assert PendingAt(p'.state, r, t);
      }
    }
  }

  /** One attestation keeps the bookkeeping, and what it finalizes was justified before it. */
  lemma AttestationSound(H: Hasher, p: Progress, slotOf: map<Root, Slot>, att: AggregatedAttestation)
    requires CollisionFree(H) && Sound(H, p) && Indexes(slotOf, p.state)
    ensures var p' := ProcessAttestation(p, slotOf, att);
            && Sound(H, p') && Advances(p.state, p'.state) && Indexes(slotOf, p'.state)
            && (p'.state.finalized != p.state.finalized ==>
                  && p'.state.finalized == att.data.source
                  && JustifiedAt(p.state, p'.state.finalized.slot))
            && forall t: Slot :: JustifiedAt(p'.state, t) ==>
                 JustifiedAt(p.state, t) || t == att.data.target.slot || t <= p'.state.finalized.slot
  {
    var n := |p.state.validators|;
    var source, target := att.data.source, att.data.target;
    if IsValidVote(p.state, source, target) {
      TallyLength(H, p, target.root);
      if |att.bits| > n {
        RecordSound(H, p, source, target, TallyOf(p, target.root));
      } else {
        var votes := RecordVotes(TallyOf(p, target.root), att.bits);
        if 3 * CountVotes(votes) < 2 * n {
          RecordSound(H, p, source, target, votes);
        } else {
          JustifySound(H, p, source, target);
          FinalizeSound(H, Justify(p, target), slotOf, source);
        }
      }
    }
  }

  lemma {:induction false} PrefixSound(H: Hasher, p: Progress, slotOf: map<Root, Slot>, atts: Body, k: nat)
    requires CollisionFree(H) && Sound(H, p) && Indexes(slotOf, p.state) && k <= |atts|
    ensures var q := ProcessPrefix(p, slotOf, atts, k);
            Sound(H, q) && Advances(p.state, q.state) && Indexes(slotOf, q.state)
  {
    if k > 0 {
      PrefixSound(H, p, slotOf, atts, k - 1);
      AttestationSound(H, ProcessPrefix(p, slotOf, atts, k - 1), slotOf, atts[k - 1]);
    }
  }

  // Whole states

  ghost predicate Fresh(s: State) {
    && s.header.slot == 0 && s.header.parentRoot == ZERO
    && s.history == [] && s.window == [] && s.tallyRoots == [] && s.tallyVotes == []
    && s.justified == Checkpoint(ZERO, 0) && s.finalized == Checkpoint(ZERO, 0)
  }

  ghost predicate Encoded(s: State) {
    Ascending(s.tallyRoots) && |s.tallyVotes| == |s.tallyRoots| * |s.validators|
  }

  ghost predicate ParentKnown(s: State) {
    exists t: Slot :: t < |s.history| && s.history[t] == s.header.parentRoot && s.history[t] != ZERO
  }

  ghost predicate Settled(H: Hasher, s: State) {
    && 0 < s.header.slot == |s.history|
    && ParentKnown(s)
    && Encoded(s)
    && Sound(H, Unpack(s))
  }

  /** The invariant of every state a chain can reach: the genesis state, or one with a block. */
  ghost predicate Inv(H: Hasher, s: State) {
    s.header.slot <= s.slot && (Fresh(s) || Settled(H, s))
  }

  lemma SlotsKeepInv(H: Hasher, s: State, target: Slot)
    requires Inv(H, s) && ProcessSlots(H, s, target).Ok?
    ensures Inv(H, ProcessSlots(H, s, target).value)
  {
    var t := ProcessSlots(H, s, target).value;
    assert t == s.(slot := t.slot, header := t.header);
    if Settled(H, s) {
      SoundIgnoresRest(H, Unpack(s), t);
    }
  }

  lemma SoundIgnoresRest(H: Hasher, p: Progress, t: State)
    requires Sound(H, p)
    requires t == p.state.(slot := t.slot, header := t.header, tallyRoots := t.tallyRoots, tallyVotes := t.tallyVotes)
    ensures Sound(H, Progress(t, p.tallies))
  {
    forall r | r in p.tallies ensures TallySound(t, r, p.tallies[r]) {
      assert TallySound(p.state, r, p.tallies[r]);
      var u: Slot :| PendingAt(p.state, r, u);
      assert PendingAt(t, r, u);
    }
  }

  lemma HistoryExtends(H: Hasher, history: seq<Root>, header: Header, gap: nat)
    requires Chain(H, history) && |history| == header.slot
    ensures Chain(H, history + [H.header(header)] + EmptySlots(gap))
  {
  }

  lemma WindowExtends(s: State, t: State, slot: Slot)
    requires t.finalized.slot == s.finalized.slot
    requires t.window == ExtendTo(s.window, s.finalized.slot, slot)
    ensures forall u: Slot :: JustifiedAt(t, u) <==> JustifiedAt(s, u)
  {
  }

  lemma ZeroNeverPending(H: Hasher, s: State)
    requires Settled(H, s)
    ensures ZERO !in s.tallyRoots
  {
    DecodeUniformRoots(s);
  }

  lemma DecodeUniformRoots(s: State)
    requires Encoded(s)
    ensures Lists(s.tallyRoots, Unpack(s).tallies.Keys)
  {
    DecodeUniform(s.tallyRoots, s.tallyVotes, |s.validators|);
  }

  /** The root a state's latest block is known by once its state root is filled in. */
  function TipRoot(H: Hasher, s: State): Root {
    H.header(CacheStateRoot(H, s).header)
  }

  /** Where a valid header leaves the state: a sound starting point for the attestations. */
  ghost predicate HeaderDone(H: Hasher, s: State, b: Block, t: State) {
    && Sound(H, Unpack(t)) && Encoded(t) && ZERO !in t.tallyRoots
    && t.slot == b.slot && t.header == HeaderOf(H, b).(stateRoot := ZERO) && s.header.slot < b.slot
    && |t.history| == b.slot && ParentKnown(t)
    && t.history == s.history + [b.parentRoot] + EmptySlots(b.slot - s.header.slot - 1)
    && b.parentRoot == H.header(s.header)
    && t.validators == s.validators && t.finalized.slot == s.finalized.slot
    && (forall u: Slot :: JustifiedAt(t, u) <==> JustifiedAt(s, u))
  }

  lemma HeaderSound(H: Hasher, s: State, b: Block)
    requires CollisionFree(H) && Inv(H, s)
    requires ProcessBlockHeader(H, s, b).Ok?
    ensures HeaderDone(H, s, b, ProcessBlockHeader(H, s, b).value)
  {
    var t := ProcessBlockHeader(H, s, b).value;
    HistoryExtends(H, s.history, s.header, b.slot - s.header.slot - 1);
    WindowExtends(s, t, b.slot - 1);
    assert t.history[s.header.slot] == b.parentRoot;
    if Settled(H, s) {
      ZeroNeverPending(H, s);
      TalliesCarryOver(s, t);
    }
  }

  lemma TalliesCarryOver(s: State, t: State)
    requires TalliesSound(s, Unpack(s).tallies) && s.history <= t.history && t.validators == s.validators
    requires t.finalized.slot == s.finalized.slot && t.tallyRoots == s.tallyRoots && t.tallyVotes == s.tallyVotes
    requires forall u: Slot :: JustifiedAt(t, u) <==> JustifiedAt(s, u)
    ensures TalliesSound(t, Unpack(t).tallies)
  {
    forall r | r in Unpack(t).tallies ensures TallySound(t, r, Unpack(t).tallies[r]) {
      assert TallySound(s, r, Unpack(s).tallies[r]);
      var u: Slot :| PendingAt(s, r, u);
      assert PendingAt(t, r, u);
    }
  }

  lemma PackRoundTrip(p: Progress)
    requires Uniform(p.tallies, |p.state.validators|)
    ensures Encoded(Pack(p)) && Unpack(Pack(p)) == Progress(Pack(p), p.tallies)
  {
    DecodeAfterEncode(p.tallies, |p.state.validators|);
  }

  lemma SoundIsUniform(H: Hasher, p: Progress)
    requires Sound(H, p)
    ensures Uniform(p.tallies, |p.state.validators|)
  {
  }

  lemma AttestationsSound(H: Hasher, t: State, atts: Body)
    requires CollisionFree(H) && Sound(H, Unpack(t)) && ZERO !in t.tallyRoots
    ensures var r := ProcessAttestations(t, atts);
            && r.Ok? && Sound(H, Unpack(r.value)) && Encoded(r.value)
            && Advances(t, r.value.(tallyRoots := t.tallyRoots, tallyVotes := t.tallyVotes))
  {
    var p := Unpack(t);
    var q := ProcessPrefix(p, SlotIndex(t), atts, |atts|);
    assert Indexes(SlotIndex(t), t);
    PrefixSound(H, p, SlotIndex(t), atts, |atts|);
    SoundIsUniform(H, q);
    PackRoundTrip(q);
    SoundIgnoresRest(H, q, Pack(q));
  }

  /** What a later state of the same chain keeps of an earlier one. */
  ghost predicate Extends(s: State, t: State) {
    && t.validators == s.validators
    && s.history <= t.history
    && s.finalized.slot <= t.finalized.slot
    && (s.finalized.slot < |s.history| ==> CheckpointExists(t, s.finalized))
    && forall u: Slot :: JustifiedAt(s, u) ==> JustifiedAt(t, u)
  }

  lemma BodyKeepsInv(H: Hasher, s: State, b: Block, d: State)
    requires CollisionFree(H) && HeaderDone(H, s, b, d)
    requires s.finalized.slot < |s.history| ==> CheckpointExists(s, s.finalized)
    ensures var r := ProcessAttestations(d, b.body);
            && r.Ok? && Inv(H, r.value) && Settled(H, r.value) && Extends(s, r.value)
            && r.value.slot == d.slot && r.value.header == d.header && r.value.history == d.history
  {
    AttestationsSound(H, d, b.body);
    var t := ProcessAttestations(d, b.body).value;
    var u: Slot :| u < |d.history| && d.history[u] == d.header.parentRoot && d.history[u] != ZERO;
    assert t.history[u] == t.header.parentRoot;
    ExtendsThrough(s, d, t);
  }

  /** A block that is applied to a state within the invariant leaves a state within it. Finality does
      not move back and stays on the chain, no slot loses its justification, history only grows. */
  lemma BlockKeepsInv(H: Hasher, s: State, b: Block)
    requires CollisionFree(H) && Inv(H, s) && ApplyBlock(H, s, b).Ok?
    ensures var t := ApplyBlock(H, s, b).value;
            && Inv(H, t) && Settled(H, t) && Extends(s, t)
            && t.slot == t.header.slot == b.slot > s.header.slot
            && t.header == HeaderOf(H, b).(stateRoot := ZERO)
            && t.history == s.history + [b.parentRoot] + EmptySlots(b.slot - s.header.slot - 1)
            && b.parentRoot == TipRoot(H, s)
  {
    var c := ProcessSlots(H, s, b.slot).value;
    SlotsKeepInv(H, s, b.slot);
    ProcessBlockKeepsInv(H, c, b);
    SlotsKeepChain(H, s, b.slot, ProcessBlock(H, c, b).value);
  }

  lemma SlotsKeepChain(H: Hasher, s: State, target: Slot, t: State)
    requires ProcessSlots(H, s, target).Ok? && Extends(ProcessSlots(H, s, target).value, t)
    ensures var c := ProcessSlots(H, s, target).value;
            c.history == s.history && c.header.slot == s.header.slot && H.header(c.header) == TipRoot(H, s)
    ensures Extends(s, t)
  {
  }

  lemma ProcessBlockKeepsInv(H: Hasher, s: State, b: Block)
    requires CollisionFree(H) && Inv(H, s) && ProcessBlock(H, s, b).Ok?
    ensures var t := ProcessBlock(H, s, b).value;
            && Inv(H, t) && Settled(H, t) && Extends(s, t)
            && t.slot == t.header.slot == b.slot > s.header.slot
            && t.header == HeaderOf(H, b).(stateRoot := ZERO)
            && t.history == s.history + [b.parentRoot] + EmptySlots(b.slot - s.header.slot - 1)
            && b.parentRoot == H.header(s.header)
  {
    HeaderSound(H, s, b);
    BodyKeepsInv(H, s, b, ProcessBlockHeader(H, s, b).value);
  }

  lemma ExtendsThrough(s: State, d: State, t: State)
    requires d.validators == s.validators && s.history <= d.history && d.finalized.slot == s.finalized.slot
    requires s.finalized.slot < |s.history| ==> CheckpointExists(s, s.finalized)
    requires forall u: Slot :: JustifiedAt(d, u) <==> JustifiedAt(s, u)
    requires Advances(d, t.(tallyRoots := d.tallyRoots, tallyVotes := d.tallyVotes))
    ensures Extends(s, t)
  {
  }

  /** Once a block exists the only way the zero-hash check can fail is gone. */
  lemma ZeroHashNeverFires(H: Hasher, s: State, b: Block)
    requires CollisionFree(H) && Inv(H, s)
    ensures ApplyBlock(H, s, b) != Err(ZeroHashInJustificationRoots)
  {
    var r := ProcessSlots(H, s, b.slot);
    if r.Ok? {
      SlotsKeepInv(H, s, b.slot);
      if ProcessBlockHeader(H, r.value, b).Ok? {
        HeaderSound(H, r.value, b);
      }
    }
  }

  /** The checks a block has to pass, all of them before its attestations are looked at. */
  predicate Admissible(H: Hasher, s: State, b: Block) {
    && s.slot < b.slot <= 262144
    && 0 < |s.validators| && b.proposer == b.slot % |s.validators|
    && b.parentRoot == TipRoot(H, s)
  }

  /** A block applies exactly when it is admissible: no attestation can make it fail. */
  lemma AppliesIffAdmissible(H: Hasher, s: State, b: Block)
    requires CollisionFree(H) && Inv(H, s)
    ensures ApplyBlock(H, s, b).Ok? <==> Admissible(H, s, b)
  {
    if s.slot < b.slot {
      SlotsKeepInv(H, s, b.slot);
      var c := ProcessSlots(H, s, b.slot).value;
      GapGuardIsSlotBound(H, c, b);
      if ProcessBlockHeader(H, c, b).Ok? {
        HeaderSound(H, c, b);
        AttestationsSound(H, ProcessBlockHeader(H, c, b).value, b.body);
      }
    }
  }

  /** The error of a refused block is that of its slot or its header. */
  lemma ErrorIsHeaders(H: Hasher, s: State, b: Block)
    requires CollisionFree(H) && Inv(H, s)
    ensures var slots := ProcessSlots(H, s, b.slot);
            match slots
            case Err(e) => ApplyBlock(H, s, b) == Err(e)
            case Ok(c) =>
              match ProcessBlockHeader(H, c, b)
              case Err(e) => ApplyBlock(H, s, b) == Err(e)
              case Ok(_) => ApplyBlock(H, s, b).Ok?
  {
    AppliesIffAdmissible(H, s, b);
    if s.slot < b.slot {
      var c := ProcessSlots(H, s, b.slot).value;
      SlotsKeepInv(H, s, b.slot);
      if ProcessBlockHeader(H, c, b).Ok? {
        HeaderSound(H, c, b);
        AttestationsSound(H, ProcessBlockHeader(H, c, b).value, b.body);
      }
    }
  }

  /** In every state of a chain the test follows the documented schedule for every slot of the history and the
      block's own: these are the slots that votes, finalization and attestation targets ask about. */
  lemma TestFollowsSchedule(H: Hasher, s: State, t: Slot)
    requires Inv(H, s) && t <= s.header.slot
    ensures JustifiableAfter(t, s.finalized.slot) <==> ScheduledAfter(t, s.finalized.slot)
  {
    ScheduleWithinHistory(t, s.finalized.slot);
  }

  // Capacities

  lemma {:induction false} DistinctFromList(keys: set<Root>, list: seq<Root>)
    requires forall r :: r in keys ==> r in list
    ensures |keys| <= |list|
  {
    if list == [] {
      assert keys == {};
    } else {
      var k := |list| - 1;
      forall r | r in keys - {list[k]} ensures r in list[..k] {
        var i :| 0 <= i < |list| && list[i] == r;
      }
      DistinctFromList(keys - {list[k]}, list[..k]);
    }
  }

  lemma {:induction false} ListingLength(roots: seq<Root>, keys: set<Root>)
    requires Lists(roots, keys)
    ensures |roots| == |keys|
  {
    if roots == [] {
      assert keys == {};
    } else {
      DropLast(roots, keys);
      ListingLength(roots[..|roots| - 1], keys - {roots[|roots| - 1]});
      LastIsGreatest(roots, keys);
    }
  }

  /** The history bound is also the bound of the justified window and of the vote matrix. */
  lemma CapacitiesBounded(H: Hasher, s: State)
    requires Inv(H, s)
    ensures |s.window| <= |s.history| <= HISTORICAL_ROOTS_LIMIT
    ensures |s.tallyRoots| <= HISTORICAL_ROOTS_LIMIT
    ensures |s.tallyVotes| <= HISTORICAL_ROOTS_LIMIT * |s.validators|
  {
    if Settled(H, s) {
      PendingRootsBounded(H, s);
      MatrixBound(|s.tallyRoots|, HISTORICAL_ROOTS_LIMIT, |s.validators|);
    }
  }

  lemma MatrixBound(rows: nat, limit: nat, n: nat)
    requires rows <= limit
    ensures rows * n <= limit * n
  {
  }

  lemma PendingRootsBounded(H: Hasher, s: State)
    requires Settled(H, s)
    ensures |s.tallyRoots| <= |s.history|
  {
    var tallies := Unpack(s).tallies;
    forall r | r in tallies.Keys ensures r in s.history {
      assert TallySound(s, r, tallies[r]);
      var t: Slot :| PendingAt(s, r, t);
    }
    DistinctFromList(tallies.Keys, s.history);
    DecodeUniformRoots(s);
    ListingLength(s.tallyRoots, tallies.Keys);
  }

  /** Within the invariant the gap guard compares the block's own slot: the sum cannot overflow. */
  lemma GapGuardIsSlotBound(H: Hasher, s: State, b: Block)
    requires Inv(H, s) && s.header.slot < b.slot
    ensures |s.history| + 1 + (b.slot - s.header.slot - 1) == b.slot
  {
  }
}
