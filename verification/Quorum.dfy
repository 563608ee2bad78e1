/** Who voted for what: a slot above the finality boundary is justified exactly when two thirds of the
    validators have a counted vote for its block. */
module Quorum {
  import opened Types
  import opened VoteMatrix
  import opened Transition
  import opened Bookkeeping
  import opened Runs

  datatype Vote = Vote(validator: ValidatorIndex, target: Checkpoint)

  type Ledger = set<Vote>

  /** The votes that count when `s` meets `att`: those of a valid attestation that is not too long. */
  ghost function Cast(s: State, att: AggregatedAttestation): Ledger {
    if IsValidVote(s, att.data.source, att.data.target) && |att.bits| <= |s.validators|
    then set v | v in Voted(att.bits) :: Vote(v, att.data.target)
    else {}
  }

  function Registry(n: nat): (r: set<ValidatorIndex>)
    ensures |r| == n && forall v: ValidatorIndex :: v in r <==> v < n
  {
    if n == 0 then {} else Registry(n - 1) + {n - 1}
  }

  ghost function VotersFor(ledger: Ledger, target: Checkpoint, n: nat): set<ValidatorIndex> {
    set v | v in Registry(n) && Vote(v, target) in ledger
  }

  ghost predicate HasQuorum(ledger: Ledger, target: Checkpoint, n: nat) {
    3 * |VotersFor(ledger, target, n)| >= 2 * n
  }

  /** Genesis needs no votes. */
  ghost predicate Backed(ledger: Ledger, target: Checkpoint, n: nat) {
    target.slot == 0 || HasQuorum(ledger, target, n)
  }

  /** The block at slot `t` agrees with the ledger: while unjustified its tally is exactly the counted
      voters, and once justified they are a quorum. */
  ghost predicate SlotExact(p: Progress, ledger: Ledger, t: Slot)
    requires t < |p.state.history|
  {
    var c, n := Checkpoint(p.state.history[t], t), |p.state.validators|;
    if JustifiedAt(p.state, t) then HasQuorum(ledger, c, n)
    else Voted(TallyOf(p, c.root)) == VotersFor(ledger, c, n)
  }

  ghost predicate SlotsExact(p: Progress, ledger: Ledger) {
    forall t: Slot {:trigger SlotExact(p, ledger, t)} ::
      p.state.finalized.slot < t < |p.state.history| && p.state.history[t] != ZERO ==> SlotExact(p, ledger, t)
  }

  ghost predicate OnlyPast(ledger: Ledger, length: nat) {
    forall x :: x in ledger ==> x.target.slot < length
  }

  /** State, tallies and ledger tell the same story. */
  ghost predicate Exact(p: Progress, ledger: Ledger) {
    && SlotsExact(p, ledger)
    && OnlyPast(ledger, |p.state.history|)
    && Backed(ledger, p.state.finalized, |p.state.validators|)
    && Backed(ledger, p.state.justified, |p.state.validators|)
  }

  lemma SubsetSize<T>(a: set<T>, b: set<T>)
    requires a <= b
    ensures |a| <= |b|
  {
    assert b == a + (b - a);
  }

  lemma MoreVoters(ledger: Ledger, more: Ledger, c: Checkpoint, n: nat)
    ensures VotersFor(ledger, c, n) <= VotersFor(ledger + more, c, n)
    ensures HasQuorum(ledger, c, n) ==> HasQuorum(ledger + more, c, n)
    ensures Backed(ledger, c, n) ==> Backed(ledger + more, c, n)
  {
    SubsetSize(VotersFor(ledger, c, n), VotersFor(ledger + more, c, n));
  }

  /** Votes for one checkpoint change the voters of that checkpoint only. */
  lemma CastVoters(ledger: Ledger, s: State, att: AggregatedAttestation, c: Checkpoint)
    requires IsValidVote(s, att.data.source, att.data.target) && |att.bits| <= |s.validators|
    ensures VotersFor(ledger + Cast(s, att), c, |s.validators|)
         == VotersFor(ledger, c, |s.validators|) + if c == att.data.target then Voted(att.bits) else {}
  {
    var n := |s.validators|;
    forall v ensures v in VotersFor(ledger + Cast(s, att), c, n)
                <==> v in VotersFor(ledger, c, n) || (c == att.data.target && v in Voted(att.bits))
    {
      assert Vote(v, c) in Cast(s, att) <==> c == att.data.target && v in Voted(att.bits);
    }
  }

  lemma RecordedVoters(votes: seq<bool>, bits: seq<bool>)
    requires |bits| <= |votes|
    ensures Voted(RecordVotes(votes, bits)) == Voted(votes) + Voted(bits)
  {
  }

  // Recording a vote below the quorum

  lemma RecordExact(H: Hasher, p: Progress, ledger: Ledger, more: Ledger, target: Checkpoint, votes: seq<bool>)
    requires CollisionFree(H) && Sound(H, p) && Exact(p, ledger)
    requires target.root != ZERO && PendingAt(p.state, target.root, target.slot)
    requires forall c: Checkpoint :: c != target ==>
               VotersFor(ledger + more, c, |p.state.validators|) == VotersFor(ledger, c, |p.state.validators|)
    requires Voted(votes) == VotersFor(ledger + more, target, |p.state.validators|)
    requires OnlyPast(more, |p.state.history|)
    ensures Exact(p.(tallies := p.tallies[target.root := votes]), ledger + more)
  {
    var q := p.(tallies := p.tallies[target.root := votes]);
    var n := |p.state.validators|;
    forall t: Slot | q.state.finalized.slot < t < |q.state.history| && q.state.history[t] != ZERO
      ensures SlotExact(q, ledger + more, t)
    {
      assert SlotExact(p, ledger, t);
      var c := Checkpoint(p.state.history[t], t);
      if c != target && !JustifiedAt(p.state, t) {
        assert c.root != target.root by { RootsDiffer(H, c.root, t, target.root, target.slot); }
      }
    }
    MoreVoters(ledger, more, p.state.finalized, n);
    MoreVoters(ledger, more, p.state.justified, n);
  }

  // Justifying

  lemma JustifyExact(H: Hasher, p: Progress, ledger: Ledger, more: Ledger, source: Checkpoint, target: Checkpoint)
    requires CollisionFree(H) && Sound(H, p) && Exact(p, ledger) && IsValidVote(p.state, source, target)
    requires forall c: Checkpoint :: c != target ==>
               VotersFor(ledger + more, c, |p.state.validators|) == VotersFor(ledger, c, |p.state.validators|)
    requires HasQuorum(ledger + more, target, |p.state.validators|) && OnlyPast(more, |p.state.history|)
    ensures Exact(Justify(p, target), ledger + more)
  {
    var q := Justify(p, target);
    var n := |p.state.validators|;
    JustifySound(H, p, source, target);
    forall t: Slot | q.state.finalized.slot < t < |q.state.history| && q.state.history[t] != ZERO
      ensures SlotExact(q, ledger + more, t)
    {
      assert SlotExact(p, ledger, t);
      var c := Checkpoint(p.state.history[t], t);
      if c != target && !JustifiedAt(p.state, t) {
        assert c.root != target.root by { RootsDiffer(H, c.root, t, target.root, target.slot); }
        assert TallyOf(q, c.root) == TallyOf(p, c.root);
      }
    }
    MoreVoters(ledger, more, p.state.finalized, n);
  }

  /** A source that becomes final was the finalized checkpoint already, or explicitly justified. */
  lemma SourceBacked(p: Progress, ledger: Ledger, source: Checkpoint)
    requires CheckpointsSound(p.state) && Exact(p, ledger)
    requires OnChain(p.state, source) && JustifiedAt(p.state, source.slot) && p.state.finalized.slot <= source.slot
    ensures Backed(ledger, source, |p.state.validators|)
  {
    if source.slot == p.state.finalized.slot {
      assert source == p.state.finalized;
    } else {
      assert SlotExact(p, ledger, source.slot);
      assert source == Checkpoint(p.state.history[source.slot], source.slot);
    }
  }

  lemma FinalizeExact(H: Hasher, p: Progress, slotOf: map<Root, Slot>, ledger: Ledger, source: Checkpoint)
    requires CollisionFree(H) && Sound(H, p) && Indexes(slotOf, p.state) && Exact(p, ledger)
    requires OnChain(p.state, source) && JustifiedAt(p.state, source.slot)
    requires source.slot < p.state.justified.slot && p.state.finalized.slot < p.state.justified.slot
    ensures Exact(TryFinalize(p, slotOf, source, p.state.justified), ledger)
  {
    var s := p.state;
    var q := TryFinalize(p, slotOf, source, s.justified);
    if !JustifiableBetween(source.slot, s.justified.slot, s.finalized.slot) {
      NoBackwardFinality(source.slot, s.justified.slot, s.finalized.slot);
      SourceBacked(p, ledger, source);
      ShiftSound(s, source);
      forall t: Slot | q.state.finalized.slot < t < |q.state.history| && q.state.history[t] != ZERO
        ensures SlotExact(q, ledger, t)
      {
        assert SlotExact(p, ledger, t);
        if !JustifiedAt(s, t) && s.history[t] in p.tallies {
          PendingIsIndexed(H, s, slotOf, s.history[t], t);
        }
      }
    }
  }

  // One attestation

  lemma AttestationExact(H: Hasher, p: Progress, slotOf: map<Root, Slot>, ledger: Ledger, att: AggregatedAttestation)
    requires CollisionFree(H) && Sound(H, p) && Indexes(slotOf, p.state) && Exact(p, ledger)
    ensures Exact(ProcessAttestation(p, slotOf, att), ledger + Cast(p.state, att))
  {
    var n := |p.state.validators|;
    var source, target := att.data.source, att.data.target;
    if !IsValidVote(p.state, source, target) {
      assert ledger + {} == ledger;
    } else {
      TallyLength(H, p, target.root);
      assert PendingAt(p.state, target.root, target.slot);
      assert SlotExact(p, ledger, target.slot);
      assert target == Checkpoint(p.state.history[target.slot], target.slot);
      if |att.bits| > n {
        assert ledger + {} == ledger;
        RecordExact(H, p, ledger, {}, target, TallyOf(p, target.root));
      } else {
        CountedAttestation(H, p, slotOf, ledger, att);
      }
    }
  }

  lemma CountedAttestation(H: Hasher, p: Progress, slotOf: map<Root, Slot>, ledger: Ledger, att: AggregatedAttestation)
    requires CollisionFree(H) && Sound(H, p) && Indexes(slotOf, p.state) && Exact(p, ledger)
    requires IsValidVote(p.state, att.data.source, att.data.target) && |att.bits| <= |p.state.validators|
    requires |TallyOf(p, att.data.target.root)| == |p.state.validators|
    requires PendingAt(p.state, att.data.target.root, att.data.target.slot)
    requires Voted(TallyOf(p, att.data.target.root)) == VotersFor(ledger, att.data.target, |p.state.validators|)
    ensures Exact(ProcessAttestation(p, slotOf, att), ledger + Cast(p.state, att))
  {
    var n := |p.state.validators|;
    var source, target, more := att.data.source, att.data.target, Cast(p.state, att);
    var votes := RecordVotes(TallyOf(p, target.root), att.bits);
    RecordedVoters(TallyOf(p, target.root), att.bits);
    CastVoters(ledger, p.state, att, target);
    forall c: Checkpoint | c != target ensures VotersFor(ledger + more, c, n) == VotersFor(ledger, c, n) {
      CastVoters(ledger, p.state, att, c);
    }
    CountIsCardinality(votes);
    if 3 * CountVotes(votes) < 2 * n {
      RecordExact(H, p, ledger, more, target, votes);
    } else {
      JustifyExact(H, p, ledger, more, source, target);
      JustifySound(H, p, source, target);
      FinalizeExact(H, Justify(p, target), slotOf, ledger + more, source);
    }
  }

  // Blocks

  /** The ledger after the first `k` attestations of a body. */
  ghost function After(ledger: Ledger, p: Progress, slotOf: map<Root, Slot>, body: Body, k: nat): Ledger
    requires k <= |body|
  {
    if k == 0 then ledger
    else After(ledger, p, slotOf, body, k - 1) + Cast(ProcessPrefix(p, slotOf, body, k - 1).state, body[k - 1])
  }

  /** The sound intermediate results that agree with the ledger. */
  ghost function Accounted(H: Hasher, slotOf: map<Root, Slot>, ledger: Ledger): iset<Progress> {
    iset p: Progress | Sound(H, p) && Indexes(slotOf, p.state) && Exact(p, ledger)
  }

  lemma AttestationAccounted(H: Hasher, p: Progress, slotOf: map<Root, Slot>, ledger: Ledger,
                             att: AggregatedAttestation)
    requires CollisionFree(H) && p in Accounted(H, slotOf, ledger)
    ensures ProcessAttestation(p, slotOf, att) in Accounted(H, slotOf, ledger + Cast(p.state, att))
  {
    AttestationSound(H, p, slotOf, att);
    AttestationExact(H, p, slotOf, ledger, att);
  }

  ghost function AccountedPairs(H: Hasher, slotOf: map<Root, Slot>): iset<(Progress, Ledger)> {
    iset x: (Progress, Ledger) | x.0 in Accounted(H, slotOf, x.1)
  }

  ghost function PrefixPair(p: Progress, slotOf: map<Root, Slot>, ledger: Ledger, body: Body, k: nat): (Progress,
                            Ledger)
    requires k <= |body|
  {
    (ProcessPrefix(p, slotOf, body, k), After(ledger, p, slotOf, body, k))
  }

  lemma NextPair(H: Hasher, p: Progress, slotOf: map<Root, Slot>, ledger: Ledger, body: Body, k: nat)
    requires CollisionFree(H) && k < |body| && PrefixPair(p, slotOf, ledger, body, k) in AccountedPairs(H, slotOf)
    ensures PrefixPair(p, slotOf, ledger, body, k + 1) in AccountedPairs(H, slotOf)
  {
    var x := PrefixPair(p, slotOf, ledger, body, k);
    AttestationAccounted(H, x.0, slotOf, x.1, body[k]);
  }

  /** The pairs before, between and after the attestations of a body. */
  ghost function PrefixPairs(p: Progress, slotOf: map<Root, Slot>, ledger: Ledger, body: Body): seq<(Progress,
                             Ledger)> {
    seq(|body| + 1, i requires 0 <= i < |body| + 1 => PrefixPair(p, slotOf, ledger, body, i))
  }

  lemma PairKept(H: Hasher, p: Progress, slotOf: map<Root, Slot>, ledger: Ledger, body: Body, i: nat)
    requires CollisionFree(H) && i < |body|
    ensures KeptAt(AccountedPairs(H, slotOf), PrefixPairs(p, slotOf, ledger, body), i)
  {
    if PrefixPair(p, slotOf, ledger, body, i) in AccountedPairs(H, slotOf) {
      NextPair(H, p, slotOf, ledger, body, i);
    }
  }

  lemma PairsKept(H: Hasher, p: Progress, slotOf: map<Root, Slot>, ledger: Ledger, body: Body, good: iset<(Progress,
                  Ledger)>,
                  xs: seq<(Progress, Ledger)>, k: nat)
    requires CollisionFree(H) && good == AccountedPairs(H, slotOf) && xs == PrefixPairs(p, slotOf, ledger, body)
    requires k < |xs| && xs[0] in good
    ensures xs[k] in good
  {
    forall i: nat | i + 1 < |xs| ensures KeptAt(good, xs, i) {
      PairKept(H, p, slotOf, ledger, body, i);
    }
    StepByStep(good, xs, k);
  }

  lemma PrefixAccounted(H: Hasher, p: Progress, slotOf: map<Root, Slot>, ledger: Ledger, body: Body, k: nat)
    requires CollisionFree(H) && p in Accounted(H, slotOf, ledger) && k <= |body|
    ensures ProcessPrefix(p, slotOf, body, k) in Accounted(H, slotOf, After(ledger, p, slotOf, body, k))
  {
    var xs := PrefixPairs(p, slotOf, ledger, body);
    assert xs[0] == (p, ledger);
    PairsKept(H, p, slotOf, ledger, body, AccountedPairs(H, slotOf), xs, k);
    assert xs[k] == PrefixPair(p, slotOf, ledger, body, k);
  }

  lemma ExactIgnoresRest(p: Progress, q: Progress, ledger: Ledger)
    requires Exact(p, ledger) && q.tallies == p.tallies
    requires q.state == p.state.(slot := q.state.slot, header := q.state.header,
                                 tallyRoots := q.state.tallyRoots, tallyVotes := q.state.tallyVotes)
    ensures Exact(q, ledger)
  {
    forall t: Slot | q.state.finalized.slot < t < |q.state.history| && q.state.history[t] != ZERO
      ensures SlotExact(q, ledger, t)
    {
      assert SlotExact(p, ledger, t);
    }
  }

  lemma NoTallyYet(H: Hasher, s: State, d: State, t: Slot, r: Root)
    requires CollisionFree(H) && Chain(H, d.history) && s.history <= d.history
    requires |s.history| <= t < |d.history| && d.history[t] != ZERO && exists u: Slot :: PendingAt(s, r, u) && r != ZERO
    ensures r != d.history[t]
  {
    var u: Slot :| PendingAt(s, r, u) && r != ZERO;
    assert d.history[u] == r;
    RootsDiffer(H, r, u, d.history[t], t);
  }

  lemma NoVotersYet(ledger: Ledger, length: nat, c: Checkpoint, n: nat)
    requires OnlyPast(ledger, length) && length <= c.slot
    ensures VotersFor(ledger, c, n) == {}
  {
  }

  /** A slot that did not exist before has no votes yet, counted or tallied. */
  lemma NewSlotExact(H: Hasher, s: State, b: Block, d: State, ledger: Ledger, t: Slot)
    requires CollisionFree(H) && Inv(H, s) && Exact(Unpack(s), ledger)
    requires HeaderDone(H, s, b, d) && d.tallyRoots == s.tallyRoots && d.tallyVotes == s.tallyVotes
    requires |s.history| <= t < |d.history| && d.history[t] != ZERO && d.finalized.slot < t
    ensures SlotExact(Unpack(d), ledger, t)
  {
    var c := Checkpoint(d.history[t], t);
    NoVotersYet(ledger, |s.history|, c, |d.validators|);
    assert !JustifiedAt(s, t);
    forall r | r in Unpack(s).tallies ensures r != c.root {
      assert TallySound(s, r, Unpack(s).tallies[r]);
      NoTallyYet(H, s, d, t, r);
    }
    assert Voted(TallyOf(Unpack(d), c.root)) == {};
  }

  lemma HeaderExact(H: Hasher, s: State, b: Block, d: State, ledger: Ledger)
    requires CollisionFree(H) && Inv(H, s) && Exact(Unpack(s), ledger)
    requires HeaderDone(H, s, b, d) && d.tallyRoots == s.tallyRoots && d.tallyVotes == s.tallyVotes
    requires d.justified.slot == s.justified.slot
    requires Settled(H, s) ==> d.finalized == s.finalized && d.justified == s.justified
    ensures Exact(Unpack(d), ledger)
  {
    forall t: Slot | d.finalized.slot < t < |d.history| && d.history[t] != ZERO
      ensures SlotExact(Unpack(d), ledger, t)
    {
      if t < |s.history| {
        assert SlotExact(Unpack(s), ledger, t);
      } else {
        NewSlotExact(H, s, b, d, ledger, t);
      }
    }
  }

  lemma HeaderStepExact(H: Hasher, s: State, b: Block, ledger: Ledger)
    requires CollisionFree(H) && Inv(H, s) && Exact(Unpack(s), ledger) && ProcessBlockHeader(H, s, b).Ok?
    ensures var d := ProcessBlockHeader(H, s, b).value;
            ZERO !in d.tallyRoots && Unpack(d) in Accounted(H, SlotIndex(d), ledger)
  {
    HeaderSound(H, s, b);
    IndexesItself(ProcessBlockHeader(H, s, b).value);
    HeaderExact(H, s, b, ProcessBlockHeader(H, s, b).value, ledger);
  }

  lemma SlotsStepExact(H: Hasher, s: State, target: Slot, ledger: Ledger)
    requires Exact(Unpack(s), ledger) && ProcessSlots(H, s, target).Ok?
    ensures Exact(Unpack(ProcessSlots(H, s, target).value), ledger)
  {
    ExactIgnoresRest(Unpack(s), Unpack(ProcessSlots(H, s, target).value), ledger);
  }

  lemma PackExact(H: Hasher, q: Progress, ledger: Ledger)
    requires Sound(H, q) && Exact(q, ledger)
    ensures Exact(Unpack(Pack(q)), ledger)
  {
    SoundIsUniform(H, q);
    PackRoundTrip(q);
    ExactIgnoresRest(q, Unpack(Pack(q)), ledger);
  }

  lemma BodyExact(H: Hasher, d: State, body: Body, ledger: Ledger)
    requires CollisionFree(H) && ZERO !in d.tallyRoots && Unpack(d) in Accounted(H, SlotIndex(d), ledger)
    ensures ProcessAttestations(d, body).Ok?
    ensures Exact(Unpack(ProcessAttestations(d, body).value), After(ledger, Unpack(d), SlotIndex(d), body, |body|))
  {
    PrefixAccounted(H, Unpack(d), SlotIndex(d), ledger, body, |body|);
    PackExact(H, ProcessPrefix(Unpack(d), SlotIndex(d), body, |body|),
              After(ledger, Unpack(d), SlotIndex(d), body, |body|));
  }

  /** The ledger after a block, given the one of its parent state. */
  ghost function AfterBlock(H: Hasher, ledger: Ledger, s: State, b: Block): Ledger {
    match ProcessSlots(H, s, b.slot)
    case Err(_) => ledger
    case Ok(c) =>
      match ProcessBlockHeader(H, c, b)
      case Err(_) => ledger
      case Ok(d) => After(ledger, Unpack(d), SlotIndex(d), b.body, |b.body|)
  }

  lemma BlockExact(H: Hasher, s: State, b: Block, ledger: Ledger)
    requires CollisionFree(H) && Inv(H, s) && ApplyBlock(H, s, b).Ok? && Unpack(s) in Agreeing(ledger)
    ensures Unpack(ApplyBlock(H, s, b).value) in Agreeing(AfterBlock(H, ledger, s, b))
  {
    var c := ProcessSlots(H, s, b.slot).value;
    SlotsKeepInv(H, s, b.slot);
    SlotsStepExact(H, s, b.slot, ledger);
    HeaderStepExact(H, c, b, ledger);
    BodyExact(H, ProcessBlockHeader(H, c, b).value, b.body, ledger);
  }

  // Runs

  /** All votes counted in the first `k` blocks of a run. */
  ghost function RunVotes(H: Hasher, states: seq<State>, blocks: seq<Block>, k: nat): Ledger
    requires k <= |blocks| && k <= |states|
  {
    if k == 0 then {} else AfterBlock(H, RunVotes(H, states, blocks, k - 1), states[k - 1], blocks[k - 1])
  }

  ghost function Agreeing(ledger: Ledger): iset<Progress> {
    iset p: Progress | Exact(p, ledger)
  }

  lemma FreshExact(s: State)
    requires Fresh(s)
    ensures Unpack(s) in Agreeing({})
  {
  }

  ghost function ExactPairs(H: Hasher): iset<(State, Ledger)> {
    iset x: (State, Ledger) | Inv(H, x.0) && Unpack(x.0) in Agreeing(x.1)
  }

  lemma NextExact(H: Hasher, s: State, b: Block, t: State, ledger: Ledger)
    requires CollisionFree(H) && (s, ledger) in ExactPairs(H) && StateTransition(H, s, b) == Ok(t)
    ensures (t, AfterBlock(H, ledger, s, b)) in ExactPairs(H)
  {
    AcceptedStep(H, s, b);
    BlockExact(H, s, b, ledger);
  }

  lemma LedgerStep(H: Hasher, states: seq<State>, blocks: seq<Block>, i: nat)
    requires CollisionFree(H) && (states, blocks) in AllRuns(H) && i < |blocks| && |states| == |blocks| + 1
    requires (states[i], RunVotes(H, states, blocks, i)) in ExactPairs(H)
    ensures (states[i + 1], RunVotes(H, states, blocks, i + 1)) in ExactPairs(H)
  {
    assert Accepted(H, states, blocks, i);
    NextExact(H, states[i], blocks[i], states[i + 1], RunVotes(H, states, blocks, i));
  }

  lemma {:induction false} RunPairs(H: Hasher, states: seq<State>, blocks: seq<Block>, k: nat)
    requires CollisionFree(H) && (states, blocks) in AllRuns(H) && |states| == |blocks| + 1
    requires k < |states| && (states[0], {}) in ExactPairs(H)
    ensures (states[k], RunVotes(H, states, blocks, k)) in ExactPairs(H)
  {
    if k > 0 {
      RunPairs(H, states, blocks, k - 1);
      LedgerStep(H, states, blocks, k - 1);
    }
  }

  /** After every block of a run, the state agrees with the ledger of counted votes. */
  lemma RunExact(H: Hasher, states: seq<State>, blocks: seq<Block>, k: nat)
    requires CollisionFree(H) && IsRun(H, states, blocks) && Inv(H, states[0]) && Fresh(states[0]) && k < |states|
    ensures Unpack(states[k]) in Agreeing(RunVotes(H, states, blocks, k))
  {
    FreshExact(states[0]);
    RunPairs(H, states, blocks, k);
  }

  /** In every state of every run, a block above the finality boundary is justified exactly when two
      thirds of the validators have a counted vote for it. */
  lemma JustifiedIffQuorum(H: Hasher, states: seq<State>, blocks: seq<Block>, k: nat, t: Slot)
    requires CollisionFree(H) && IsRun(H, states, blocks) && Inv(H, states[0]) && Fresh(states[0]) && k < |states|
    requires states[k].finalized.slot < t < |states[k].history| && states[k].history[t] != ZERO
    ensures var n := |states[0].validators|;
            JustifiedAt(states[k], t)
            <==> HasQuorum(RunVotes(H, states, blocks, k), Checkpoint(states[k].history[t], t), n)
  {
    var s := states[k];
    var c := Checkpoint(s.history[t], t);
    RunExact(H, states, blocks, k);
    RunKeepsInv(H, states, blocks, k);
    RunExtends(H, states, blocks, 0, k);
    assert SlotExact(Unpack(s), RunVotes(H, states, blocks, k), t);
    if !JustifiedAt(s, t) {
      UnjustifiedTally(H, s, c.root);
    }
  }

  /** The stored tally of an unjustified block, if any, is below the quorum. */
  lemma UnjustifiedTally(H: Hasher, s: State, root: Root)
    requires Settled(H, s)
    ensures 3 * |Voted(TallyOf(Unpack(s), root))| < 2 * |s.validators|
  {
    TallyLength(H, Unpack(s), root);
    CountIsCardinality(TallyOf(Unpack(s), root));
  }

  /** A block other than genesis that the run holds justified: finalized, latest justified, or with its bit set. */
  ghost predicate JustifiedBlock(s: State, c: Checkpoint) {
    && 0 < c.slot && OnChain(s, c)
    && (c == s.finalized || c == s.justified || (s.finalized.slot < c.slot && JustifiedAt(s, c.slot)))
  }

  /** Every justified block of a run, also the finalized one, has the counted votes of two thirds of the validators. */
  lemma QuorumSound(H: Hasher, states: seq<State>, blocks: seq<Block>, k: nat, c: Checkpoint)
    requires CollisionFree(H) && IsRun(H, states, blocks) && Inv(H, states[0]) && Fresh(states[0])
    requires k < |states| && JustifiedBlock(states[k], c)
    ensures HasQuorum(RunVotes(H, states, blocks, k), c, |states[0].validators|)
  {
    RunExact(H, states, blocks, k);
    RunExtends(H, states, blocks, 0, k);
    if c != states[k].finalized && c != states[k].justified {
      assert SlotExact(Unpack(states[k]), RunVotes(H, states, blocks, k), c.slot);
      assert c == Checkpoint(states[k].history[c.slot], c.slot);
    }
  }

  predicate VotesFor(att: AggregatedAttestation, x: Vote) {
    x.validator < |att.bits| && att.bits[x.validator] && att.data.target == x.target
  }

  ghost predicate VotedIn(blocks: seq<Block>, x: Vote) {
    exists i, j :: 0 <= i < |blocks| && 0 <= j < |blocks[i].body| && VotesFor(blocks[i].body[j], x)
  }

  lemma CastVotes(s: State, att: AggregatedAttestation, x: Vote)
    requires x in Cast(s, att)
    ensures VotesFor(att, x)
  {
  }

  lemma {:induction false} NewVotesFromBody(ledger: Ledger, p: Progress, slotOf: map<Root, Slot>, body: Body, k: nat,
                                            x: Vote)
    requires k <= |body| && x in After(ledger, p, slotOf, body, k) && x !in ledger
    ensures exists j :: 0 <= j < |body| && VotesFor(body[j], x)
  {
    var q := ProcessPrefix(p, slotOf, body, k - 1).state;
    if x in Cast(q, body[k - 1]) {
      CastVotes(q, body[k - 1], x);
    } else {
      NewVotesFromBody(ledger, p, slotOf, body, k - 1, x);
    }
  }

  /** A counted vote is a set bit of an attestation in a block of the run. */
  lemma {:induction false} CountedVotesWereCast(H: Hasher, states: seq<State>, blocks: seq<Block>, k: nat, x: Vote)
    requires k <= |blocks| && k <= |states| && x in RunVotes(H, states, blocks, k)
    ensures VotedIn(blocks, x)
  {
    var earlier := RunVotes(H, states, blocks, k - 1);
    if x in earlier {
      CountedVotesWereCast(H, states, blocks, k - 1, x);
    } else {
      var s, b := states[k - 1], blocks[k - 1];
      var d := ProcessBlockHeader(H, ProcessSlots(H, s, b.slot).value, b).value;
      NewVotesFromBody(earlier, Unpack(d), SlotIndex(d), b.body, |b.body|, x);
      var j :| 0 <= j < |b.body| && VotesFor(b.body[j], x);
      assert VotesFor(blocks[k - 1].body[j], x);
    }
  }

  lemma Overlap(a: set<ValidatorIndex>, b: set<ValidatorIndex>, n: nat)
    requires forall v :: v in a || v in b ==> v < n
    ensures |a| + |b| <= n + |a * b|
  {
    SubsetSize(a + b, Registry(n));
    assert |a + b| == |a| + |b| - |a * b|;
  }

  /** The votes of a run that count for a checkpoint, one per validator. */
  ghost predicate CountedFor(H: Hasher, states: seq<State>, blocks: seq<Block>, k: nat, c: Checkpoint,
                             v: ValidatorIndex)
    requires k <= |blocks| && k <= |states|
  {
    Vote(v, c) in RunVotes(H, states, blocks, k) && VotedIn(blocks, Vote(v, c))
  }

  /** If two runs over the same number of validators justify different blocks at one slot, then at least a
      third of the validators have a counted vote for both: a set bit in a block of either run. */
  lemma ConflictNeedsEquivocation(H: Hasher, states: seq<State>, blocks: seq<Block>, k: nat, c: Checkpoint,
                                  states': seq<State>, blocks': seq<Block>, k': nat, c': Checkpoint)
    requires CollisionFree(H)
    requires IsRun(H, states, blocks) && Inv(H, states[0]) && Fresh(states[0])
    requires IsRun(H, states', blocks') && Inv(H, states'[0]) && Fresh(states'[0])
    requires |states[0].validators| == |states'[0].validators|
    requires k < |states| && JustifiedBlock(states[k], c)
    requires k' < |states'| && JustifiedBlock(states'[k'], c')
    requires c.slot == c'.slot && c.root != c'.root
    ensures exists both: set<ValidatorIndex> ::
              && 3 * |both| >= |states[0].validators|
              && forall v :: v in both ==>
                   && v < |states[0].validators|
                   && CountedFor(H, states, blocks, k, c, v) && CountedFor(H, states', blocks', k', c', v)
  {
    var n := |states[0].validators|;
    var a, b := VotersFor(RunVotes(H, states, blocks, k), c, n), VotersFor(RunVotes(H, states', blocks', k'), c', n);
    QuorumSound(H, states, blocks, k, c);
    QuorumSound(H, states', blocks', k', c');
    Overlap(a, b, n);
    forall v | v in a * b
      ensures v < n && CountedFor(H, states, blocks, k, c, v) && CountedFor(H, states', blocks', k', c', v)
    {
      CountedVotesWereCast(H, states, blocks, k, Vote(v, c));
      CountedVotesWereCast(H, states', blocks', k', Vote(v, c'));
    }
  }
}
