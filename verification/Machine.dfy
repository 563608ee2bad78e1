/** The state transition as the client runs it: a state object updated in place. Each method is proved
    equal to the function of the same name, and none of its unchecked steps can go out of range. */
module Machine {
  import opened Types
  import opened Justifiability
  import opened JustifiedSlots
  import opened VoteMatrix
  import opened Bookkeeping
  import T = Transition

  method AnyJustifiable(lo: Slot, hi: Slot, finalized: Slot) returns (found: bool)
    ensures found == T.JustifiableBetween(lo, hi, finalized)
  {
    var t := lo + 1;
    while t < hi
      invariant lo < t
      invariant forall u :: lo < u < t ==> !JustifiableAfter(u, finalized)
    {
      if JustifiableAfter(t, finalized) {
        return true;
      }
      t := t + 1;
    }
    return false;
  }

  /** Every bit of the aggregation lies within the tally, so no index is out of range. */
  method MarkVotes(tally: seq<bool>, bits: seq<bool>) returns (votes: seq<bool>)
    requires |bits| <= |tally|
    ensures votes == T.RecordVotes(tally, bits)
  {
    votes := tally;
    for i := 0 to |bits|
      invariant |votes| == |tally|
      invariant forall v :: 0 <= v < |votes| ==> votes[v] == (tally[v] || (v < i && bits[v]))
    {
      if bits[i] {
        votes := votes[i := true];
      }
    }
  }

  function Max(a: nat, b: nat): nat { if a < b then b else a }

  method IndexHistory(history: seq<Root>, finalized: Slot) returns (slotOf: map<Root, Slot>)
    ensures slotOf == T.IndexSlots(history, finalized + 1, |history|)
  {
    slotOf := map[];
    var t := finalized + 1;
    if t >= |history| {
      return;
    }
    while t < |history|
      invariant finalized + 1 <= t <= |history|
      invariant slotOf == T.IndexSlots(history, finalized + 1, t)
      invariant forall r :: r in slotOf ==> slotOf[r] < t
    {
      var root := history[t];
      if root in slotOf {
        slotOf := slotOf[root := Max(slotOf[root], t)];
      } else {
        slotOf := slotOf[root := t];
      }
      t := t + 1;
    }
  }

  /** What a header error leaves behind: the gap check comes after the genesis roots are set. */
  function AfterHeaderError(s: State, b: Block, error: T.Error): State {
    if error.SlotGapTooLarge? then T.WithGenesisRoots(s, b.parentRoot) else s
  }

  /** What a failed transition leaves behind. */
  ghost function AfterError(H: Hasher, s: State, b: Block, error: T.Error): State {
    match T.ProcessSlots(H, s, b.slot)
    case Err(_) => s
    case Ok(c) =>
      match T.ProcessBlock(H, c, b)
      case Ok(t) => t
      case Err(_) => AfterHeaderError(c, b, error)
  }

  class ConsensusState {
    var genesisTime: nat
    var slot: Slot
    var header: Header
    var justified: Checkpoint
    var finalized: Checkpoint
    var history: seq<Root>
    var window: seq<bool>
    var validators: seq<Validator>
    var tallyRoots: seq<Root>
    var tallyVotes: seq<bool>

    function View(): State
      reads this
    {
      State(genesisTime, slot, header, justified, finalized, history, window, validators, tallyRoots, tallyVotes)
    }

    constructor (s: State)
      ensures View() == s
    {
      genesisTime, slot, header := s.genesisTime, s.slot, s.header;
      justified, finalized := s.justified, s.finalized;
      history, window, validators := s.history, s.window, s.validators;
      tallyRoots, tallyVotes := s.tallyRoots, s.tallyVotes;
    }

    method ProcessSlots(H: Hasher, target: Slot) returns (e: Option<T.Error>)
      modifies this
      ensures match T.ProcessSlots(H, old(View()), target)
              case Ok(t) => e == None && View() == t
              case Err(error) => e == Some(error) && View() == old(View())
    {
      if slot >= target {
        return Some(T.StateSlotIsNewer(target, slot));
      }
      if header.stateRoot == ZERO {
        header := header.(stateRoot := H.state(View()));
      }
      slot := target;
      e := None;
    }

    method ValidateHeader(H: Hasher, b: Block) returns (e: Option<T.Error>)
      ensures e.Some? ==> T.ProcessBlockHeader(H, View(), b) == Err(e.value) && !e.value.SlotGapTooLarge?
      ensures e.None? <==>
                && b.slot == slot && header.slot < b.slot && 0 < |validators|
                && b.proposer == b.slot % |validators| && b.parentRoot == H.header(header)
    {
      if b.slot != slot {
        return Some(T.SlotMismatch(slot, b.slot));
      }
      if b.slot <= header.slot {
        return Some(T.ParentSlotIsNewer(header.slot, b.slot));
      }
      var expected := T.CurrentProposer(b.slot, |validators|);
      if expected.None? {
        return Some(T.NoValidators);
      }
      if b.proposer != expected.value {
        return Some(T.InvalidProposer(expected.value, b.proposer));
      }
      var parentRoot := H.header(header);
      if b.parentRoot != parentRoot {
        return Some(T.InvalidParent(parentRoot, b.parentRoot));
      }
      return None;
    }

    /** On an error the state is left as it was, except that a gap error comes after the genesis roots are set. */
    method ProcessBlockHeader(H: Hasher, b: Block) returns (e: Option<T.Error>)
      requires CollisionFree(H) && Inv(H, View())
      modifies this
      ensures match T.ProcessBlockHeader(H, old(View()), b)
              case Ok(t) => e == None && View() == t
              case Err(error) =>
                && e == Some(error)
                && View() == AfterHeaderError(old(View()), b, error)
    {
      e := ValidateHeader(H, b);
      if e.Some? {
        return;
      }
      ghost var before := View();
      var parentRoot := H.header(header);
      if header.slot == 0 {
        justified := justified.(root := parentRoot);
        finalized := finalized.(root := parentRoot);
      }

      var gap := b.slot - header.slot - 1;
      var total := |history| + 1 + gap;
      assert total == b.slot by { GapGuardIsSlotBound(H, before, b); }
      if total > HISTORICAL_ROOTS_LIMIT {
        return Some(T.SlotGapTooLarge(gap, |history|, HISTORICAL_ROOTS_LIMIT));
      }
      history := history + [parentRoot] + T.EmptySlots(gap);
      assert |history| <= HISTORICAL_ROOTS_LIMIT;

      window := ExtendTo(window, finalized.slot, b.slot - 1);
      assert |window| <= HISTORICAL_ROOTS_LIMIT;

      header := Header(b.slot, b.proposer, b.parentRoot, ZERO, H.body(b.body));
    }

    /** The subtraction of the two boundaries and the pruning lookup are safe by the bookkeeping. */
    method TryFinalize(H: Hasher, source: Checkpoint, target: Checkpoint, tallies: Tallies, slotOf: map<Root, Slot>)
      returns (kept: Tallies)
      requires CollisionFree(H) && T.Progress(View(), tallies) in SoundOnes(H) && Indexes(slotOf, View())
      requires finalized.slot < target.slot
      modifies this`finalized, this`window
      ensures T.Progress(View(), kept) == T.TryFinalize(T.Progress(old(View()), tallies), slotOf, source, target)
    {
      var blocked := AnyJustifiable(source.slot, target.slot, finalized.slot);
      if blocked {
        return tallies;
      }
      ghost var p := T.Progress(View(), tallies);
      TalliesIndexed(H, p, slotOf);
      NoBackwardFinality(source.slot, target.slot, finalized.slot);
      kept := MoveBoundary(source, tallies, slotOf);
      assert T.Progress(View(), kept) == T.TryFinalize(p, slotOf, source, target);
    }

    /** The boundary moves to `source`: the window drops the slots below, the tallies at or below are pruned. */
    method MoveBoundary(source: Checkpoint, tallies: Tallies, slotOf: map<Root, Slot>) returns (kept: Tallies)
      requires finalized.slot <= source.slot && forall r :: r in tallies ==> r in slotOf
      modifies this`finalized, this`window
      ensures finalized == source && window == Shift(old(window), source.slot - old(finalized).slot)
      ensures kept == T.KeepAbove(tallies, slotOf, source.slot)
    {
      var previous := finalized.slot;
      finalized := source;
      var delta := finalized.slot - previous;
      window := ShiftWindow(window, delta);
      kept := T.KeepAbove(tallies, slotOf, finalized.slot);
    }

    method ApplyAttestation(H: Hasher, att: AggregatedAttestation, tallies: Tallies, slotOf: map<Root, Slot>)
      returns (out: Tallies)
      requires CollisionFree(H) && Sound(H, T.Progress(View(), tallies)) && Indexes(slotOf, View())
      modifies this`justified, this`finalized, this`window
      ensures T.Progress(View(), out) == T.ProcessAttestation(T.Progress(old(View()), tallies), slotOf, att)
    {
      ghost var p := T.Progress(View(), tallies);
      var n := |validators|;
      var source, target := att.data.source, att.data.target;
      if !T.IsValidVote(View(), source, target) {
        return tallies;
      }
      var tally := if target.root in tallies then tallies[target.root] else seq(n, _ => false);
      if |att.bits| > n {
        return tallies[target.root := tally];
      }
      TallyLength(H, p, target.root);
      var votes := MarkVotes(tally, att.bits);
      var count := Count(votes);
      if 3 * count < 2 * n {
        return tallies[target.root := votes];
      }
      JustifySound(H, p, source, target);
      justified := target;
      assert Settable(window, finalized.slot, target.slot);
      window := SetJustified(window, finalized.slot, target.slot);
      out := TryFinalize(H, source, target, tallies - {target.root}, slotOf);
    }

    /** All attestations in block order, on the state and the in-memory vote map. */
    method ApplyAll(H: Hasher, atts: Body, start: Tallies, slotOf: map<Root, Slot>) returns (tallies: Tallies)
      requires CollisionFree(H) && T.Progress(View(), start) in SoundOnes(H) && Indexes(slotOf, View())
      modifies this`justified, this`finalized, this`window
      ensures T.Progress(View(), tallies) == T.ProcessPrefix(T.Progress(old(View()), start), slotOf, atts, |atts|)
      ensures Uniform(tallies, |validators|)
    {
      tallies := start;
      for k := 0 to |atts|
        invariant T.Progress(View(), tallies) == T.ProcessPrefix(T.Progress(old(View()), start), slotOf, atts, k)
        invariant Sound(H, T.Progress(View(), tallies)) && Indexes(slotOf, View())
      {
        AttestationSound(H, T.Progress(View(), tallies), slotOf, atts[k]);
        tallies := ApplyAttestation(H, atts[k], tallies, slotOf);
      }
      SoundIsUniform(H, T.Progress(View(), tallies));
    }

    method ProcessAttestations(H: Hasher, atts: Body) returns (e: Option<T.Error>)
      requires CollisionFree(H) && Sound(H, T.Unpack(View()))
      modifies this
      ensures match T.ProcessAttestations(old(View()), atts)
              case Ok(t) => e == None && View() == t
              case Err(error) => e == Some(error) && View() == old(View())
    {
      if ZERO in tallyRoots {
        return Some(T.ZeroHashInJustificationRoots);
      }
      AccumulateVotes(H, atts);
      e := None;
    }

    /** Decode the stored votes, apply the attestations, encode the votes again. */
    method AccumulateVotes(H: Hasher, atts: Body)
      requires CollisionFree(H) && T.Unpack(View()) in SoundOnes(H)
      modifies this`justified, this`finalized, this`window, this`tallyRoots, this`tallyVotes
      ensures View() == T.Pack(T.ProcessPrefix(T.Unpack(old(View())), T.SlotIndex(old(View())), atts, |atts|))
    {
      var tallies := DecodeTallies(tallyRoots, tallyVotes, |validators|);
      var slotOf := IndexHistory(history, finalized.slot);
      IndexesItself(View());
      ghost var before := View();
      tallies := ApplyAll(H, atts, tallies, slotOf);
      assert T.Progress(View(), tallies) == T.ProcessPrefix(T.Unpack(before), T.SlotIndex(before), atts, |atts|);
      SerializeJustifications(tallies);
    }

    /** The in-memory votes, sorted by root and flattened, go back into the state. */
    method SerializeJustifications(tallies: Tallies)
      requires Uniform(tallies, |validators|)
      modifies this`tallyRoots, this`tallyVotes
      ensures View() == T.Pack(T.Progress(old(View()), tallies))
    {
      tallyRoots, tallyVotes := EncodeTallies(tallies, |validators|);
    }

    method ProcessBlock(H: Hasher, b: Block) returns (e: Option<T.Error>)
      requires CollisionFree(H) && Inv(H, View())
      modifies this
      ensures match T.ProcessBlock(H, old(View()), b)
              case Ok(t) => e == None && View() == t
              case Err(error) => e == Some(error) && View() == AfterHeaderError(old(View()), b, error)
    {
      if T.ProcessBlockHeader(H, View(), b).Ok? {
        HeaderSound(H, View(), b);
      }
      e := ProcessBlockHeader(H, b);
      if e.None? {
        e := ProcessAttestations(H, b.body);
      }
    }

    /** On an error the half-updated state is the caller's to discard: untouched if the slot is not ahead, with
        the slots advanced if the header is wrong, fully processed if only the state root differs. */
    method StateTransition(H: Hasher, b: Block) returns (e: Option<T.Error>)
      requires CollisionFree(H) && Inv(H, View())
      modifies this
      ensures match T.StateTransition(H, old(View()), b)
              case Ok(t) => e == None && View() == t && Inv(H, t)
              case Err(error) => e == Some(error) && View() == AfterError(H, old(View()), b, error)
    {
      ghost var s := View();
      if T.ProcessSlots(H, s, b.slot).Ok? {
        SlotsKeepInv(H, s, b.slot);
      }
      if T.ApplyBlock(H, s, b).Ok? {
        BlockKeepsInv(H, s, b);
      }
      e := ProcessSlots(H, b.slot);
      if e.Some? {
        return;
      }
      e := ProcessBlock(H, b);
      if e.Some? {
        return;
      }
      var computed := H.state(View());
      if b.stateRoot != computed {
        return Some(T.StateRootMismatch(b.stateRoot, computed));
      }
    }
  }
}
