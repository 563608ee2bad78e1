/** The fork-choice store as the client runs it: an object updated in place by ticks, blocks and gossip. */
module StoreMachine {
  import opened Types
  import opened Justifiability
  import opened ForkChoice
  import opened Payloads
  import opened StoreSafety
  import opened FastForward
  import M = Store
  import A = Attesting
  import B = Bookkeeping
  import T = Transition
  import Machine

  lemma StoredStateInv(H: Hasher, a: Root, s: M.Store, r: Root)
    requires s in Sane(H, a) && r in s.states
    ensures B.Inv(H, s.states[r])
  {
    assert NodeSound(H, a, s.states, r);
  }

  lemma FinalizedAboveAnchor(H: Hasher, a: Root, s: M.Store)
    requires s in Sane(H, a)
    ensures a in s.states && s.states[a].header.slot <= s.finalized.slot
  {
  }

  lemma ImportedStartsLive(H: Hasher, a: Root, s: M.Store, sb: M.SignedBlock, verify: bool, crypto: M.Crypto)
    requires CollisionFree(H) && s in Sane(H, a)
    requires M.BlockOutcome(H, s, sb, verify, crypto).Ok?
    requires M.BlockOutcome(H, s, sb, verify, crypto).value.Some?
    ensures var t := M.ImportBlock(H, s, sb, M.BlockOutcome(H, s, sb, verify, crypto).value.value);
            && SlotIncreasing(t.live) && t.justified.root != ZERO && t.justified.root in t.live
            && |t.newPayloads| <= NEW_PAYLOAD_CAP
  {
    var t := M.ImportBlock(H, s, sb, M.BlockOutcome(H, s, sb, verify, crypto).value.value);
    ImportKeepsSane(H, a, s, sb, verify, crypto, map[]);
    SaneFacts(H, a, M.UpdateHead(t, map[]));
  }

  method CollectBits(bits: seq<bool>, dataRoot: Root, payload: Payload) returns (entries: seq<Entry>)
    ensures entries == M.BitEntries(bits, dataRoot, payload, |bits|)
  {
    entries := [];
    for i := 0 to |bits|
      invariant entries == M.BitEntries(bits, dataRoot, payload, i)
    {
      if bits[i] {
        entries := entries + [Entry(SignatureKey(i, dataRoot), payload)];
      }
    }
  }

  method CollectBody(H: Hasher, body: Body, proofs: seq<seq<bool>>)
    returns (data: map<Root, AttestationData>, entries: seq<Entry>)
    ensures var k := M.Min(|body|, |proofs|);
            data == M.BodyData(H, body, k) && entries == M.BodyEntries(H, body, proofs, k)
  {
    data, entries := map[], [];
    for i := 0 to M.Min(|body|, |proofs|)
      invariant data == M.BodyData(H, body, i)
      invariant entries == M.BodyEntries(H, body, proofs, i)
    {
      var att := body[i];
      var dataRoot := H.data(att.data);
      data := data[dataRoot := att.data];
      var more := CollectBits(att.bits, dataRoot, Payload(att.data.slot, proofs[i]));
      entries := entries + more;
    }
  }

  /** Indices first, then keys in order, then the proof itself. */
  method VerifyProof(validators: seq<Validator>, proof: seq<bool>, i: nat, crypto: M.Crypto)
    returns (e: Option<M.StoreError>)
    ensures e == M.CheckProof(validators, proof, i, crypto)
  {
    var v := |validators|;
    while v < |proof|
      invariant forall u :: |validators| <= u < v && u < |proof| ==> !proof[u]
    {
      if proof[v] {
        return Some(M.InvalidValidatorIndex);
      }
      v := v + 1;
    }
    for k := 0 to |proof|
      invariant M.FirstBadKey(validators, proof, crypto, 0) == M.FirstBadKey(validators, proof, crypto, k)
    {
      if proof[k] && !crypto.keyDecodes(validators[k].pubkey) {
        return Some(M.PubkeyDecodingFailed(k));
      }
    }
    return if crypto.proofVerifies(i) then None else Some(M.AggregateVerificationFailed);
  }

  method VerifySignatures(validators: seq<Validator>, sb: M.SignedBlock, crypto: M.Crypto)
    returns (e: Option<M.StoreError>)
    ensures e == M.CheckSignatures(validators, sb, crypto)
  {
    var body, proofs := sb.block.body, sb.proofs;
    if |body| != |proofs| {
      return Some(M.AttestationSignatureMismatch(|proofs|, |body|));
    }
    for k := 0 to |body|
      invariant M.CheckProofs(validators, body, proofs, crypto, 0) == M.CheckProofs(validators, body, proofs, crypto, k)
    {
      if body[k].bits != proofs[k] {
        return Some(M.ParticipantsMismatch);
      }
      e := VerifyProof(validators, proofs[k], k, crypto);
      if e.Some? {
        return;
      }
    }
    e := M.CheckProposer(validators, sb, crypto);
  }

  /** The transition on a copy of the parent's state, with the state root put into its header. */
  method SealedTransition(H: Hasher, parent: State, b: Block) returns (r: Result<State, T.Error>)
    requires CollisionFree(H) && B.Inv(H, parent)
    ensures match T.StateTransition(H, parent, b)
            case Ok(post) => r == Ok(M.Seal(post, b))
            case Err(error) => r == Err(error)
  {
    var post := new Machine.ConsensusState(parent);
    var e := post.StateTransition(H, b);
    if e.Some? {
      return Err(e.value);
    }
    post.header := post.header.(stateRoot := b.stateRoot);
    return Ok(post.View());
  }

  class ForkChoiceStore {
    const H: Hasher
    ghost const anchor: Root
    var time: nat
    const genesisTime: nat
    var head: Root
    var safeTarget: Root
    var justified: Checkpoint
    var finalized: Checkpoint
    var headers: map<Root, Header>
    var states: map<Root, State>
    var live: BlockTree
    var data: map<Root, AttestationData>
    var newPayloads: seq<Entry>
    var knownPayloads: seq<Entry>

    function View(): M.Store
      reads this
    {
      M.Store(time, genesisTime, head, safeTarget, justified, finalized, headers, states, live, data, newPayloads,
              knownPayloads)
    }

    ghost predicate Valid()
      reads this
    {
      CollisionFree(H) && View() in Sane(H, anchor)
    }

    /** The anchor block is head, safe target, justified and finalized. */
    constructor (H: Hasher, anchorState: State)
      requires CollisionFree(H) && B.Inv(H, anchorState) && M.AnchorMatches(H, anchorState)
      ensures Valid() && this.H == H && View() == M.InitStore(H, anchorState)
    {
      var z := anchorState.(header := anchorState.header.(stateRoot := ZERO));
      var sealed := z.(header := z.header.(stateRoot := H.state(z)));
      var root := H.header(sealed.header);
      var checkpoint := Checkpoint(root, sealed.header.slot);
      this.H, this.anchor := H, root;
      time, genesisTime := 0, sealed.genesisTime;
      head, safeTarget, justified, finalized := root, root, checkpoint, checkpoint;
      headers, states := map[root := sealed.header], map[root := sealed];
      live := map[root := BlockRef(sealed.header.slot, sealed.header.parentRoot)];
      data, newPayloads, knownPayloads := map[], [], [];
      AnchorSound(H, anchorState);
    }

    // Fork choice

    method ChooseHead(votes: Votes, minScore: nat) returns (chosen: Root)
      requires SlotIncreasing(live) && justified.root != ZERO && justified.root in live
      ensures chosen == M.Head(View(), votes, minScore)
    {
      var weights;
      chosen, weights := ComputeLmdGhostHead(justified.root, live, votes, minScore);
    }

    method UpdateHead()
      requires SlotIncreasing(live) && justified.root != ZERO && justified.root in live
      modifies this`head
      ensures exists votes :: M.HeadVotes(old(View()), votes) && View() == M.UpdateHead(old(View()), votes)
    {
      var votes := ExtractLatest(Keys(knownPayloads), data);
      head := ChooseHead(votes, 0);
      assert M.HeadVotes(old(View()), votes) && View() == M.UpdateHead(old(View()), votes);
    }

    method AcceptNewAttestations()
      requires Valid()
      modifies this`head, this`newPayloads, this`knownPayloads
      ensures SlotIncreasing(old(live)) && M.Accepts(old(View()), View())
    {
      SaneFacts(H, anchor, View());
      knownPayloads := PushBatch(knownPayloads, AGGREGATED_PAYLOAD_CAP, newPayloads);
      newPayloads := [];
      assert View() == M.Promote(old(View()));
      UpdateHead();
    }

    method UpdateSafeTarget()
      requires Valid()
      modifies this`safeTarget
      ensures SlotIncreasing(old(live)) && old(head) in old(states)
      ensures M.MovesSafeTarget(old(View()), View())
    {
      SaneFacts(H, anchor, View());
      var n := |states[head].validators|;
      var votes := ExtractLatest(Keys(knownPayloads) + Keys(newPayloads), data);
      safeTarget := ChooseHead(votes, TwoThirds(n));
      assert M.SafeVotes(old(View()), votes) && View() == M.UpdateSafeTarget(old(View()), votes);
    }

    // Time

    /** One interval of the clock. */
    method TickInterval(signal: bool, aggregates: seq<Entry>)
      requires Valid()
      modifies this`time, this`head, this`safeTarget, this`newPayloads, this`knownPayloads
      ensures Valid() && TickStep(old(View()), signal, aggregates, View())
    {
      ghost var before := View();
      SaneFacts(H, anchor, before);
      time := time + 1;
      StaysSane(H, anchor, before, time, data, newPayloads);
      RunPhase(signal, aggregates);
      TickStepSound(H, anchor, before, signal, aggregates, View());
    }

    /** The work of the interval the clock has just reached. */
    method RunPhase(signal: bool, aggregates: seq<Entry>)
      requires Valid()
      modifies this`head, this`safeTarget, this`newPayloads, this`knownPayloads
      ensures SlotIncreasing(old(live)) && old(head) in old(states) && M.Phase(old(View()), signal, aggregates, View())
    {
      SaneFacts(H, anchor, View());
      match M.Interval(time) {
        case 0 =>
          if signal {
            AcceptNewAttestations();
          }
        case 1 =>
        case 2 =>
          newPayloads := PushBatch(newPayloads, NEW_PAYLOAD_CAP, aggregates);
        case 3 =>
          UpdateSafeTarget();
        case _ =>
          AcceptNewAttestations();
      }
    }

    /** `on_tick`: `aggregates` is what aggregation would add, used only by an aggregator. */
    method OnTick(timestampMs: nat, hasProposal: bool, isAggregator: bool, aggregates: seq<Entry>)
      returns (ghost trace: seq<M.Store>)
      requires Valid()
      modifies this`time, this`head, this`safeTarget, this`newPayloads, this`knownPayloads
      ensures Valid()
      ensures var target := TargetTime(timestampMs);
              TicksTo(JumpAhead(old(View()), target), trace, target, hasProposal,
                  if isAggregator then aggregates else [])
      ensures View() == trace[|trace| - 1]
      ensures var sinceGenesis := if timestampMs >= genesisTime * 1000 then timestampMs - genesisTime * 1000 else 0;
              time == if sinceGenesis / 800 > old(time) then sinceGenesis / 800 else old(time)
    {
      var target := TargetTime(timestampMs);
      ghost var before := View();
      SaneFacts(H, anchor, before);
      if target > time + M.INTERVALS_PER_SLOT {
        time := target - M.INTERVALS_PER_SLOT;
      }
      StaysSane(H, anchor, before, time, data, newPayloads);
      trace := TickUntil(target, hasProposal, if isAggregator then aggregates else []);
      ClockEndsAtLater(H, anchor, before, trace, target, hasProposal, if isAggregator then aggregates else []);
    }

    method TickUntil(target: nat, hasProposal: bool, aggregates: seq<Entry>) returns (ghost trace: seq<M.Store>)
      requires Valid()
      modifies this`time, this`head, this`safeTarget, this`newPayloads, this`knownPayloads
      ensures Valid() && TicksTo(old(View()), trace, target, hasProposal, aggregates)
      ensures View() == trace[|trace| - 1]
    {
      trace := [View()];
      while time < target
        invariant Valid() && old(time) <= time && (time <= target || time == old(time))
        invariant Ticking(trace, target, hasProposal, aggregates)
        invariant |trace| == time - old(time) + 1 && trace[0] == old(View()) && trace[|trace| - 1] == View()
      {
        ghost var before := View();
        TickInterval(hasProposal && time + 1 == target, aggregates);
        TickStepSound(H, anchor, before, hasProposal && before.time + 1 == target, aggregates, View());
        OneMoreTick(trace, target, hasProposal, aggregates, View());
        trace := trace + [View()];
      }
    }

    /** Intervals since genesis at a wall-clock time in milliseconds. */
    function TargetTime(timestampMs: nat): nat {
      var genesisMs := genesisTime * 1000;
      (if timestampMs >= genesisMs then timestampMs - genesisMs else 0) / M.MILLISECONDS_PER_INTERVAL
    }

    // Blocks

    method UpdateCheckpoints(newHead: Root, newJustified: Option<Checkpoint>, newFinalized: Option<Checkpoint>)
      modifies this`head, this`justified, this`finalized, this`live, this`data
      ensures View() == M.UpdateCheckpoints(old(View()), newHead, newJustified, newFinalized)
    {
      var previous := finalized.slot;
      head := newHead;
      if newJustified.Some? {
        justified := newJustified.value;
      }
      if newFinalized.Some? {
        finalized := newFinalized.value;
        if finalized.slot > previous {
          live := map r | r in live && live[r].slot >= finalized.slot :: live[r];
          data := map r | r in data && data[r].slot > finalized.slot :: data[r];
        }
      }
    }

    method InsertBlock(sb: M.SignedBlock, post: State)
      modifies this`live, this`headers, this`states
      ensures View() == M.InsertBlock(H, old(View()), sb, post)
    {
      var root, header := BlockRoot(H, sb.block), HeaderOf(H, sb.block);
      headers := headers[root := header];
      live := live[root := BlockRef(header.slot, header.parentRoot)];
      states := states[root := post];
    }

    method RecordVotes(sb: M.SignedBlock)
      requires |knownPayloads| <= AGGREGATED_PAYLOAD_CAP
      modifies this`data, this`knownPayloads
      ensures View() == M.RecordVotes(H, old(View()), sb)
    {
      var bodyData, entries := CollectBody(H, sb.block.body, sb.proofs);
      data := data + bodyData[H.data(sb.proposerVote.data) := sb.proposerVote.data];
      knownPayloads := PushBatch(knownPayloads, AGGREGATED_PAYLOAD_CAP, entries);
    }

    /** Everything up to the head choice: checkpoints, tables, votes. */
    method ImportBlock(sb: M.SignedBlock, post: State)
      requires |knownPayloads| <= AGGREGATED_PAYLOAD_CAP
      modifies this`head, this`justified, this`finalized, this`live, this`data, this`headers, this`states,
               this`knownPayloads
      ensures View() == M.ImportBlock(H, old(View()), sb, post)
    {
      var higherJustified := M.IfHigher(post.justified, justified);
      var higherFinalized := M.IfHigher(post.finalized, finalized);
      if higherJustified.Some? || higherFinalized.Some? {
        UpdateCheckpoints(head, higherJustified, higherFinalized);
      }
      InsertBlock(sb, post);
      RecordVotes(sb);
    }

    method RecordProposer(sb: M.SignedBlock, verify: bool)
      requires |newPayloads| <= NEW_PAYLOAD_CAP
      modifies this`newPayloads
      ensures View() == M.RecordProposer(H, old(View()), sb, verify)
    {
      if !verify {
        var vote := sb.proposerVote;
        var key := SignatureKey(vote.validator, H.data(vote.data));
        var payload := Payload(vote.data.slot, M.SoleBit(vote.validator));
        newPayloads := PushBatch(newPayloads, NEW_PAYLOAD_CAP, [Entry(key, payload)]);
      }
    }

    /** `on_block_core`: skip a known block, reject a bad one unchanged, otherwise import it and choose a head. */
    method OnBlock(sb: M.SignedBlock, verify: bool, crypto: M.Crypto) returns (e: Option<M.StoreError>)
      requires Valid()
      modifies this
      ensures Valid() && BlockStep(H, old(View()), sb, verify, crypto, View())
      ensures match M.BlockOutcome(H, old(View()), sb, verify, crypto)
              case Err(error) => e == Some(error)
              case Ok(_) => e == None
      ensures old(justified).slot <= justified.slot && old(finalized).slot <= finalized.slot
    {
      ghost var before := View();
      var b := sb.block;
      if BlockRoot(H, b) in states {
        return None;
      }
      if b.parentRoot !in states {
        return Some(M.MissingParentState(b.parentRoot, b.slot));
      }
      if verify {
        e := VerifySignatures(states[b.parentRoot].validators, sb, crypto);
        if e.Some? {
          return;
        }
      }
      StoredStateInv(H, anchor, before, b.parentRoot);
      var post := SealedTransition(H, states[b.parentRoot], b);
      if post.Err? {
        return Some(M.StateTransitionFailed(post.error));
      }
      assert M.BlockOutcome(H, before, sb, verify, crypto) == Ok(Some(post.value));
      FinishImport(sb, verify, crypto, post.value);
      e := None;
    }

    method FinishImport(sb: M.SignedBlock, verify: bool, ghost crypto: M.Crypto, post: State)
      requires Valid() && M.BlockOutcome(H, View(), sb, verify, crypto) == Ok(Some(post))
      modifies this`head, this`justified, this`finalized, this`live, this`data, this`headers, this`states,
               this`knownPayloads, this`newPayloads
      ensures Valid() && BlockStep(H, old(View()), sb, verify, crypto, View())
      ensures old(justified).slot <= justified.slot && old(finalized).slot <= finalized.slot
    {
      ghost var before := View();
      SaneFacts(H, anchor, before);
      ImportBlock(sb, post);
      ghost var imported := View();
      ImportedStartsLive(H, anchor, before, sb, verify, crypto);
      UpdateHead();
      ghost var votes :| M.HeadVotes(imported, votes) && View() == M.UpdateHead(imported, votes);
      RecordProposer(sb, verify);
      assert View() == M.RecordProposer(H, M.UpdateHead(imported, votes), sb, verify);
      BlockStepSound(H, anchor, before, sb, verify, crypto, View());
    }

    /** A block whose parent is missing is stored for later. */
    method InsertPendingBlock(b: Block)
      requires Valid()
      modifies this`headers
      ensures Valid() && View() == M.StorePending(H, old(View()), b)
    {
      PendingSound(H, anchor, View(), b);
      headers := headers[BlockRoot(H, b) := HeaderOf(H, b)];
    }

    // Votes

    /** A single gossiped vote: refused unchanged, or its data stored. */
    method OnGossipAttestation(vote: M.ValidatorVote, crypto: M.Crypto) returns (e: Option<M.StoreError>)
      requires Valid()
      modifies this`data
      ensures Valid() && e == M.GossipVoteOutcome(old(View()), vote, crypto)
      ensures View() == if e.None? then M.StoreVote(H, old(View()), vote.data) else old(View())
    {
      ghost var before := View();
      e := M.ValidateAttestationData(View(), vote.data);
      if e.Some? {
        return;
      }
      if vote.data.target.root !in states {
        return Some(M.MissingTargetState(vote.data.target.root));
      }
      var validators := states[vote.data.target.root].validators;
      if vote.validator >= |validators| {
        return Some(M.InvalidValidatorIndex);
      }
      if !crypto.keyDecodes(validators[vote.validator].pubkey) {
        return Some(M.PubkeyDecodingFailed(vote.validator));
      }
      if !crypto.signatureDecodes {
        return Some(M.SignatureDecodingFailed);
      }
      if !crypto.signatureVerifies {
        return Some(M.SignatureVerificationFailed);
      }
      SaneFacts(H, anchor, before);
      data := data[H.data(vote.data) := vote.data];
      StaysSane(H, anchor, before, time, data, newPayloads);
    }

    /** A gossiped aggregated vote: refused unchanged, or stored with one entry per participant. */
    method OnGossipAggregated(d: AttestationData, proof: seq<bool>, crypto: M.Crypto) returns (e: Option<M.StoreError>)
      requires Valid()
      modifies this`data, this`newPayloads
      ensures Valid() && e == M.GossipOutcome(old(View()), d, proof, crypto)
      ensures View() == if e.None? then M.Gossip(H, old(View()), d, proof) else old(View())
    {
      ghost var before := View();
      SaneFacts(H, anchor, before);
      e := M.ValidateAttestationData(View(), d);
      if e.Some? {
        return;
      }
      if d.target.root !in states {
        return Some(M.MissingTargetState(d.target.root));
      }
      e := VerifyProof(states[d.target.root].validators, proof, 0, crypto);
      if e.Some? {
        return;
      }
      var dataRoot := H.data(d);
      var entries := CollectBits(proof, dataRoot, Payload(d.slot, proof));
      data := data[dataRoot := d];
      newPayloads := PushBatch(newPayloads, NEW_PAYLOAD_CAP, entries);
      StaysSane(H, anchor, before, time, data, newPayloads);
    }

    /** `get_attestation_target`: both walks meet stored headers only, and end. */
    method GetAttestationTarget() returns (target: Checkpoint)
      requires Valid()
      ensures target == A.AttestationTarget(View()) && A.IsTarget(View(), target)
    {
      ghost var s := View();
      A.TreeIncreases(H, anchor, s);
      SaneFacts(H, anchor, s);
      A.AtOrAboveAnchor(H, anchor, s, head);
      A.AtOrAboveAnchor(H, anchor, s, safeTarget);
      var safeSlot := headers[safeTarget].slot;
      var root := head;
      ghost var steps := A.JUSTIFICATION_LOOKBACK_SLOTS;
      for i := 0 to A.JUSTIFICATION_LOOKBACK_SLOTS
        invariant steps == A.JUSTIFICATION_LOOKBACK_SLOTS - i
        invariant root in states && root in headers
        invariant A.LookBack(headers, root, safeSlot, steps)
               == A.LookBack(headers, head, safeSlot, A.JUSTIFICATION_LOOKBACK_SLOTS)
      {
        if headers[root].slot > safeSlot {
          A.AtOrAboveAnchor(H, anchor, s, root);
          A.ParentStored(H, anchor, s, root);
          root := headers[root].parentRoot;
        } else {
          break;
        }
        steps := steps - 1;
      }
      root := WalkToJustifiable(root);
      A.TargetRule(H, anchor, s);
      if headers[root].slot < justified.slot {
        return justified;
      }
      return Checkpoint(root, headers[root].slot);
    }

    method WalkToJustifiable(start: Root) returns (root: Root)
      requires Valid() && start in states
      ensures root == A.ToJustifiable(headers, start, finalized.slot) && root in headers
    {
      ghost var s := View();
      root := start;
      A.AtOrAboveAnchor(H, anchor, s, root);
      while headers[root].slot > finalized.slot && !JustifiableAfter(headers[root].slot, finalized.slot)
        invariant root in states && root in headers
        invariant A.ToJustifiable(headers, root, finalized.slot) == A.ToJustifiable(headers, start, finalized.slot)
        decreases headers[root].slot
      {
        A.AtOrAboveAnchor(H, anchor, s, root);
        FinalizedAboveAnchor(H, anchor, s);
        A.ParentStored(H, anchor, s, root);
        root := headers[root].parentRoot;
      }
    }

    /** What this node attests to passes its own validation unless the slot is too far ahead. */
    method ProduceAttestationData(slot: Slot) returns (d: AttestationData)
      requires Valid()
      ensures d == A.ProduceAttestationData(View(), slot)
      ensures head in headers && d == AttestationData(slot, Checkpoint(head, headers[head].slot), d.target, justified)
      ensures A.IsTarget(View(), d.target)
      ensures M.ValidateAttestationData(View(), d) == None <==> slot <= time / M.INTERVALS_PER_SLOT + 1
    {
      SaneFacts(H, anchor, View());
      A.AtOrAboveAnchor(H, anchor, View(), head);
      var target := GetAttestationTarget();
      d := AttestationData(slot, Checkpoint(head, headers[head].slot), target, justified);
      A.ProducedIsValid(H, anchor, View(), slot);
    }
  }
}
