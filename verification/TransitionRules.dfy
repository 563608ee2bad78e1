/** The rules of 3SF-mini in absolute terms: which votes count, what a counted vote does, and when finality
    advances. Nothing here is phrased with the functions that carry the transition out. */
module TransitionRules {
  import opened Types
  import opened Justifiability
  import opened JustifiedSlots
  import opened VoteMatrix
  import opened Transition
  import opened Bookkeeping
  import opened Runs
  import opened Quorum

  // Which votes count

  /** Slots up to the boundary are justified; above it the window tells. */
  ghost predicate Marked(s: State, t: Slot) {
    t <= s.finalized.slot || (t - s.finalized.slot <= |s.window| && s.window[t - s.finalized.slot - 1])
  }

  ghost predicate BlockAt(s: State, c: Checkpoint) {
    c.slot < |s.history| && s.history[c.slot] == c.root && c.root != ZERO
  }

  /** A vote counts: from a justified block of the chain to a later, not yet justified one at a scheduled slot. */
  ghost predicate Counts(s: State, source: Checkpoint, target: Checkpoint) {
    && BlockAt(s, source) && BlockAt(s, target) && source.slot < target.slot
    && Marked(s, source.slot) && !Marked(s, target.slot)
    && ScheduledAfter(target.slot, s.finalized.slot)
  }

  lemma MarkedIsJustified(s: State, t: Slot)
    ensures Marked(s, t) <==> JustifiedAt(s, t)
  {
  }

  /** The checks of the code let through exactly the votes that count. */
  lemma ValidIffCounts(s: State, source: Checkpoint, target: Checkpoint)
    requires |s.history| <= HISTORICAL_ROOTS_LIMIT
    ensures IsValidVote(s, source, target) <==> Counts(s, source, target)
  {
    if target.slot < |s.history| {
      ScheduleWithinHistory(target.slot, s.finalized.slot);
    }
  }

  // What a vote does

  ghost function VotersSoFar(p: Progress, root: Root): set<ValidatorIndex> {
    if root in p.tallies then Voted(p.tallies[root]) else {}
  }

  /** Who has voted for the target, this attestation included. */
  ghost function VotersWith(p: Progress, att: AggregatedAttestation): set<ValidatorIndex> {
    VotersSoFar(p, att.data.target.root) + Voted(att.bits)
  }

  /** Some slot strictly between is scheduled. */
  ghost predicate ScheduledBetween(lo: Slot, hi: Slot, finalized: Slot) {
    exists t :: lo < t < hi && ScheduledAfter(t, finalized)
  }

  /** The finalized checkpoint once the target is justified: the source, if source and target are neighbours in
      the schedule. */
  ghost function FinalizedThen(s: State, source: Checkpoint, target: Checkpoint): Checkpoint {
    if ScheduledBetween(source.slot, target.slot, s.finalized.slot) then s.finalized else source
  }

  /** The target is justified, finality follows the schedule, tallies above the new boundary are kept. */
  ghost predicate Justifies(p: Progress, source: Checkpoint, target: Checkpoint, q: Progress) {
    var s, finalized := p.state, FinalizedThen(p.state, source, target);
    && q.state == s.(justified := target, finalized := finalized, window := q.state.window)
    && (forall t: Slot :: Marked(q.state, t) <==> Marked(s, t) || t == target.slot || t <= finalized.slot)
    && (forall t: Slot :: finalized.slot < t < |s.history| && s.history[t] != ZERO && t != target.slot ==>
          VotersSoFar(q, s.history[t]) == VotersSoFar(p, s.history[t]))
    && (forall r :: r in q.tallies ==> exists t: Slot :: finalized.slot < t < |s.history| && s.history[t] == r)
  }

  /** The whole rule for one attestation. */
  ghost predicate FollowsRule(p: Progress, att: AggregatedAttestation, q: Progress) {
    var n, source, target := |p.state.validators|, att.data.source, att.data.target;
    if !Counts(p.state, source, target) then q == p
    else if |att.bits| > n then
      q.state == p.state && forall r :: VotersSoFar(q, r) == VotersSoFar(p, r)
    else if 3 * |VotersWith(p, att)| < 2 * n then
      && q.state == p.state && VotersSoFar(q, target.root) == VotersWith(p, att)
      && forall r :: r != target.root ==> VotersSoFar(q, r) == VotersSoFar(p, r)
    else Justifies(p, source, target, q)
  }

  lemma TallyIsVoters(p: Progress, root: Root)
    ensures Voted(TallyOf(p, root)) == VotersSoFar(p, root)
  {
  }

  lemma BetweenIsScheduled(lo: Slot, hi: Slot, finalized: Slot)
    requires hi <= HISTORICAL_ROOTS_LIMIT
    ensures JustifiableBetween(lo, hi, finalized) <==> ScheduledBetween(lo, hi, finalized)
  {
    forall t: Slot | t < hi ensures JustifiableAfter(t, finalized) <==> ScheduledAfter(t, finalized) {
      ScheduleWithinHistory(t, finalized);
    }
  }

  lemma QuorumIsCounted(H: Hasher, p: Progress, att: AggregatedAttestation)
    requires Sound(H, p) && |att.bits| <= |p.state.validators|
    ensures var votes := RecordVotes(TallyOf(p, att.data.target.root), att.bits);
            CountVotes(votes) == |VotersWith(p, att)| && Voted(votes) == VotersWith(p, att)
  {
    TallyLength(H, p, att.data.target.root);
    TallyIsVoters(p, att.data.target.root);
    RecordedVoters(TallyOf(p, att.data.target.root), att.bits);
    CountIsCardinality(RecordVotes(TallyOf(p, att.data.target.root), att.bits));
  }

  /** Everything the boundary move needs to know of a progress whose target has just been justified. */
  ghost predicate JustNow(H: Hasher, p: Progress, source: Checkpoint, target: Checkpoint, j: Progress) {
    && j == Justify(p, target) && Sound(H, j) && p.state.finalized.slot < target.slot
    && BlockAt(p.state, source) && Marked(p.state, source.slot) && source.slot < target.slot < |p.state.history|
    && forall t: Slot :: JustifiedAt(j.state, t) <==> JustifiedAt(p.state, t) || t == target.slot
  }

  lemma MoveMarks(s: State, source: Checkpoint)
    requires CheckpointsSound(s) && OnChain(s, source) && JustifiedAt(s, source.slot)
    requires s.finalized.slot <= source.slot < s.justified.slot
    ensures var s' := s.(finalized := source, window := Shift(s.window, source.slot - s.finalized.slot));
            forall t: Slot :: JustifiedAt(s', t) <==> JustifiedAt(s, t) || t <= source.slot
  {
    ShiftSound(s, source);
  }

  /** The state after the boundary settled at `finalized`. */
  ghost predicate SettledAt(p: Progress, target: Checkpoint, finalized: Checkpoint, q: Progress) {
    && q.state == p.state.(justified := target, finalized := finalized, window := q.state.window)
    && p.state.finalized.slot <= finalized.slot
    && forall t: Slot :: JustifiedAt(q.state, t) <==>
         JustifiedAt(p.state, t) || t == target.slot || t <= finalized.slot
  }

  lemma BoundaryMoves(H: Hasher, p: Progress, slotOf: map<Root, Slot>, source: Checkpoint, target: Checkpoint,
                      j: Progress)
    requires JustNow(H, p, source, target, j) && p.state.finalized.slot <= source.slot
    requires TryFinalize(j, slotOf, source, target).state
          == j.state.(finalized := source, window := Shift(j.state.window, source.slot - j.state.finalized.slot))
    ensures SettledAt(p, target, source, TryFinalize(j, slotOf, source, target))
  {
    MoveMarks(j.state, source);
  }

  lemma BoundaryStays(H: Hasher, p: Progress, source: Checkpoint, target: Checkpoint, j: Progress)
    requires JustNow(H, p, source, target, j)
    ensures SettledAt(p, target, p.state.finalized, j)
  {
  }

  lemma TryFinalizeCases(j: Progress, slotOf: map<Root, Slot>, source: Checkpoint, target: Checkpoint)
    requires j.state.finalized.slot < target.slot <= HISTORICAL_ROOTS_LIMIT
    ensures var q := TryFinalize(j, slotOf, source, target);
            if ScheduledBetween(source.slot, target.slot, j.state.finalized.slot) then q == j
            else
              && j.state.finalized.slot <= source.slot
              && q.state == j.state.(finalized := source,
                                     window := Shift(j.state.window, source.slot - j.state.finalized.slot))
  {
    BetweenIsScheduled(source.slot, target.slot, j.state.finalized.slot);
    if !JustifiableBetween(source.slot, target.slot, j.state.finalized.slot) {
      NoBackwardFinality(source.slot, target.slot, j.state.finalized.slot);
    }
  }

  lemma BoundaryMarks(H: Hasher, p: Progress, slotOf: map<Root, Slot>, source: Checkpoint, target: Checkpoint,
                      j: Progress)
    requires JustNow(H, p, source, target, j)
    ensures SettledAt(p, target, FinalizedThen(p.state, source, target), TryFinalize(j, slotOf, source, target))
  {
    TryFinalizeCases(j, slotOf, source, target);
    if ScheduledBetween(source.slot, target.slot, p.state.finalized.slot) {
      BoundaryStays(H, p, source, target, j);
    } else {
      BoundaryMoves(H, p, slotOf, source, target, j);
    }
  }

  lemma PendingAbove(H: Hasher, p: Progress, slotOf: map<Root, Slot>, t: Slot)
    requires CollisionFree(H) && Sound(H, p) && Indexes(slotOf, p.state)
    requires t < |p.state.history| && p.state.history[t] != ZERO && p.state.history[t] in p.tallies
    ensures p.state.history[t] in slotOf && slotOf[p.state.history[t]] == t
  {
    var r := p.state.history[t];
    assert TallySound(p.state, r, p.tallies[r]);
    var u: Slot :| PendingAt(p.state, r, u);
    PendingIsIndexed(H, p.state, slotOf, r, u);
    RootAtOneSlot(H, r, t, u);
  }

  lemma BoundaryKeeps(H: Hasher, p: Progress, slotOf: map<Root, Slot>, source: Checkpoint, target: Checkpoint,
                      j: Progress, t: Slot)
    requires CollisionFree(H) && JustNow(H, p, source, target, j) && p in SoundOnes(H) && Indexes(slotOf, p.state)
    requires BlockAt(p.state, target) && FinalizedThen(p.state, source, target).slot < t < |p.state.history|
    requires p.state.history[t] != ZERO && t != target.slot
    ensures VotersSoFar(TryFinalize(j, slotOf, source, target), p.state.history[t])
         == VotersSoFar(p, p.state.history[t])
  {
    var r := p.state.history[t];
    RootsDiffer(H, r, t, target.root, target.slot);
    BetweenIsScheduled(source.slot, target.slot, p.state.finalized.slot);
    if r in p.tallies {
      PendingAbove(H, p, slotOf, t);
    }
  }

  lemma BoundaryDrops(H: Hasher, p: Progress, slotOf: map<Root, Slot>, source: Checkpoint, target: Checkpoint,
                      j: Progress)
    requires CollisionFree(H) && JustNow(H, p, source, target, j) && Indexes(slotOf, j.state)
    requires Sound(H, TryFinalize(j, slotOf, source, target))
    requires FinalizedThen(p.state, source, target) == TryFinalize(j, slotOf, source, target).state.finalized
    ensures var q, finalized := TryFinalize(j, slotOf, source, target), FinalizedThen(p.state, source, target);
            forall r :: r in q.tallies ==>
              exists t: Slot :: finalized.slot < t < |p.state.history| && p.state.history[t] == r
  {
    var q := TryFinalize(j, slotOf, source, target);
    forall r | r in q.tallies
      ensures exists t: Slot :: q.state.finalized.slot < t < |p.state.history| && p.state.history[t] == r
    {
      assert TallySound(q.state, r, q.tallies[r]);
      var t: Slot :| PendingAt(q.state, r, t);
    }
  }

  lemma TargetJustNow(H: Hasher, p: Progress, source: Checkpoint, target: Checkpoint)
    requires Sound(H, p) && Counts(p.state, source, target)
    ensures IsValidVote(p.state, source, target) && JustNow(H, p, source, target, Justify(p, target))
  {
    ValidIffCounts(p.state, source, target);
    JustifySound(H, p, source, target);
  }

  lemma BoundaryKeepsAll(H: Hasher, p: Progress, slotOf: map<Root, Slot>, source: Checkpoint, target: Checkpoint,
                         j: Progress)
    requires CollisionFree(H) && JustNow(H, p, source, target, j) && p in SoundOnes(H) && Indexes(slotOf, p.state)
    requires BlockAt(p.state, target)
    ensures var q := TryFinalize(j, slotOf, source, target);
            forall t: Slot :: FinalizedThen(p.state, source, target).slot < t < |p.state.history|
                              && p.state.history[t] != ZERO && t != target.slot ==>
              VotersSoFar(q, p.state.history[t]) == VotersSoFar(p, p.state.history[t])
  {
    var finalized := FinalizedThen(p.state, source, target);
    forall t: Slot | finalized.slot < t < |p.state.history| && p.state.history[t] != ZERO && t != target.slot
      ensures VotersSoFar(TryFinalize(j, slotOf, source, target), p.state.history[t])
           == VotersSoFar(p, p.state.history[t])
    {
      BoundaryKeeps(H, p, slotOf, source, target, j, t);
    }
  }

  lemma FinalizeRule(H: Hasher, p: Progress, slotOf: map<Root, Slot>, source: Checkpoint, target: Checkpoint)
    requires CollisionFree(H) && p in SoundOnes(H) && Indexes(slotOf, p.state) && Counts(p.state, source, target)
    ensures Justifies(p, source, target, TryFinalize(Justify(p, target), slotOf, source, target))
  {
    var j := Justify(p, target);
    var q := TryFinalize(j, slotOf, source, target);
    TargetJustNow(H, p, source, target);
    BoundaryMarks(H, p, slotOf, source, target, j);
    FinalizeSound(H, j, slotOf, source);
    BoundaryDrops(H, p, slotOf, source, target, j);
    BoundaryKeepsAll(H, p, slotOf, source, target, j);
    forall t: Slot ensures Marked(q.state, t) <==>
        Marked(p.state, t) || t == target.slot || t <= FinalizedThen(p.state, source, target).slot
    {
      MarkedIsJustified(q.state, t);
      MarkedIsJustified(p.state, t);
    }
  }

  /** A quorum justifies the target, and finality advances to the source exactly when no slot between the two is
      scheduled. */
  lemma QuorumRule(H: Hasher, p: Progress, slotOf: map<Root, Slot>, att: AggregatedAttestation)
    requires CollisionFree(H) && p in SoundOnes(H) && Indexes(slotOf, p.state)
    requires Counts(p.state, att.data.source, att.data.target) && |att.bits| <= |p.state.validators|
    requires 3 * |VotersWith(p, att)| >= 2 * |p.state.validators|
    ensures Justifies(p, att.data.source, att.data.target, ProcessAttestation(p, slotOf, att))
  {
    QuorumIsCounted(H, p, att);
    ValidIffCounts(p.state, att.data.source, att.data.target);
    FinalizeRule(H, p, slotOf, att.data.source, att.data.target);
  }

  lemma IgnoredRule(p: Progress, slotOf: map<Root, Slot>, att: AggregatedAttestation)
    requires |p.state.history| <= HISTORICAL_ROOTS_LIMIT && !Counts(p.state, att.data.source, att.data.target)
    ensures ProcessAttestation(p, slotOf, att) == p
  {
    ValidIffCounts(p.state, att.data.source, att.data.target);
  }

  /** A target that is not scheduled after the current finalized slot changes nothing. */
  lemma UnscheduledIsIgnored(p: Progress, slotOf: map<Root, Slot>, att: AggregatedAttestation)
    requires |p.state.history| <= HISTORICAL_ROOTS_LIMIT
    requires !ScheduledAfter(att.data.target.slot, p.state.finalized.slot)
    ensures ProcessAttestation(p, slotOf, att) == p
  {
    IgnoredRule(p, slotOf, att);
  }

  lemma RecordedRule(H: Hasher, p: Progress, slotOf: map<Root, Slot>, att: AggregatedAttestation)
    requires p in SoundOnes(H) && Counts(p.state, att.data.source, att.data.target)
    requires |att.bits| > |p.state.validators| || 3 * |VotersWith(p, att)| < 2 * |p.state.validators|
    ensures FollowsRule(p, att, ProcessAttestation(p, slotOf, att))
  {
    ValidIffCounts(p.state, att.data.source, att.data.target);
    TallyIsVoters(p, att.data.target.root);
    if |att.bits| <= |p.state.validators| {
      QuorumIsCounted(H, p, att);
    }
  }

  /** The progresses that `att` may lead to. */
  ghost function RuledBy(p: Progress, att: AggregatedAttestation): iset<Progress> {
    iset q: Progress | FollowsRule(p, att, q)
  }

  /** Every attestation follows the rule. */
  lemma AttestationRule(H: Hasher, p: Progress, slotOf: map<Root, Slot>, att: AggregatedAttestation)
    requires CollisionFree(H) && p in SoundOnes(H) && Indexes(slotOf, p.state)
    ensures ProcessAttestation(p, slotOf, att) in RuledBy(p, att)
  {
    if !Counts(p.state, att.data.source, att.data.target) {
      IgnoredRule(p, slotOf, att);
    } else if |att.bits| > |p.state.validators| || 3 * |VotersWith(p, att)| < 2 * |p.state.validators| {
      RecordedRule(H, p, slotOf, att);
    } else {
      QuorumRule(H, p, slotOf, att);
    }
  }

  // Blocks of a run

  /** The state of block `i` once its header is processed. */
  ghost function AfterHeader(H: Hasher, s: State, b: Block): State {
    match ProcessSlots(H, s, b.slot)
    case Err(_) => s
    case Ok(c) =>
      match ProcessBlockHeader(H, c, b)
      case Err(_) => c
      case Ok(d) => d
  }

  /** Where block `b` on `s` stands before its attestation `j`. */
  ghost function Midway(H: Hasher, s: State, b: Block, j: nat): Progress
    requires j <= |b.body|
  {
    var d := AfterHeader(H, s, b);
    ProcessPrefix(Unpack(d), SlotIndex(d), b.body, j)
  }

  /** A state within the invariant and a block it accepts. */
  ghost function AcceptedOn(H: Hasher): iset<(State, Block)> {
    iset x: (State, Block) | Inv(H, x.0) && StateTransition(H, x.0, x.1).Ok?
  }

  lemma MidwaySound(H: Hasher, s: State, b: Block, j: nat)
    requires CollisionFree(H) && (s, b) in AcceptedOn(H) && j <= |b.body|
    ensures Midway(H, s, b, j) in SoundOnes(H)
    ensures Indexes(SlotIndex(AfterHeader(H, s, b)), Midway(H, s, b, j).state)
  {
    var c, d := ProcessSlots(H, s, b.slot).value, AfterHeader(H, s, b);
    SlotsKeepInv(H, s, b.slot);
    HeaderSound(H, c, b);
    IndexesItself(d);
    PrefixSound(H, Unpack(d), SlotIndex(d), b.body, j);
  }

  /** In an accepted block every attestation follows the rule. */
  lemma BlockRule(H: Hasher, s: State, b: Block, j: nat)
    requires CollisionFree(H) && (s, b) in AcceptedOn(H) && j < |b.body|
    ensures Midway(H, s, b, j + 1) in RuledBy(Midway(H, s, b, j), b.body[j])
  {
    MidwaySound(H, s, b, j);
    AttestationRule(H, Midway(H, s, b, j), SlotIndex(AfterHeader(H, s, b)), b.body[j]);
  }

  lemma BlockStarts(H: Hasher, s: State, b: Block)
    requires CollisionFree(H) && Inv(H, s) && StateTransition(H, s, b).Ok?
    ensures var m := Midway(H, s, b, 0).state;
            m.finalized.slot == s.finalized.slot && forall t: Slot :: Marked(m, t) <==> Marked(s, t)
  {
    var c := ProcessSlots(H, s, b.slot).value;
    SlotsKeepInv(H, s, b.slot);
    HeaderSound(H, c, b);
    forall t: Slot ensures Marked(AfterHeader(H, s, b), t) <==> Marked(s, t) {
      MarkedIsJustified(AfterHeader(H, s, b), t);
      MarkedIsJustified(s, t);
      assert JustifiedAt(c, t) <==> JustifiedAt(s, t);
    }
  }

  lemma BlockEnds(H: Hasher, s: State, b: Block)
    requires StateTransition(H, s, b).Ok?
    ensures var t, m := StateTransition(H, s, b).value, Midway(H, s, b, |b.body|).state;
            t.finalized == m.finalized && t.justified == m.justified && t.window == m.window && t.history == m.history
  {
  }

  lemma BoundaryStep(H: Hasher, s: State, b: Block, k: nat)
    requires CollisionFree(H) && (s, b) in AcceptedOn(H) && k < |b.body|
    ensures Midway(H, s, b, k).state.finalized.slot <= Midway(H, s, b, k + 1).state.finalized.slot
  {
    MidwaySound(H, s, b, k);
    AttestationSound(H, Midway(H, s, b, k), SlotIndex(AfterHeader(H, s, b)), b.body[k]);
  }

  /** An attestation justified slot `t`: it counted, with a quorum, for a target at `t`, a slot scheduled after what
      was finalized at that moment. */
  ghost predicate Justified(p: Progress, att: AggregatedAttestation, t: Slot) {
    && att.data.target.slot == t && Counts(p.state, att.data.source, att.data.target)
    && ScheduledAfter(t, p.state.finalized.slot)
    && 3 * |VotersWith(p, att)| >= 2 * |p.state.validators|
  }

  lemma MarkedByRule(p: Progress, att: AggregatedAttestation, q: Progress, t: Slot)
    requires q in RuledBy(p, att) && !Marked(p.state, t) && Marked(q.state, t) && q.state.finalized.slot < t
    ensures Justified(p, att, t)
  {
  }

  /** One step of a sequence of progresses: the rule, and a boundary that does not move back. */
  ghost predicate StepAt(course: seq<Progress>, body: Body, j: nat) {
    && j < |body| && j + 1 < |course| && course[j + 1] in RuledBy(course[j], body[j])
    && course[j].state.finalized.slot <= course[j + 1].state.finalized.slot
  }

  ghost predicate IsCourse(course: seq<Progress>, body: Body) {
    && |course| == |body| + 1
    && forall j: nat {:trigger StepAt(course, body, j)} :: j < |body| ==> StepAt(course, body, j)
  }

  lemma {:induction false} BoundaryAdvances(course: seq<Progress>, body: Body, j: nat, k: nat)
    requires IsCourse(course, body) && j <= k < |course|
    ensures course[j].state.finalized.slot <= course[k].state.finalized.slot
    decreases k
  {
    if j < k {
      BoundaryAdvances(course, body, j, k - 1);
      assert StepAt(course, body, k - 1);
    }
  }

  lemma {:induction false} FindJustification(course: seq<Progress>, body: Body, k: nat, t: Slot)
    requires IsCourse(course, body) && k < |course| && !Marked(course[0].state, t) && Marked(course[k].state, t)
    requires course[|body|].state.finalized.slot < t
    ensures exists j :: 0 <= j < |body| && Justified(course[j], body[j], t)
  {
    if Marked(course[k - 1].state, t) {
      FindJustification(course, body, k - 1, t);
    } else {
      assert StepAt(course, body, k - 1);
      BoundaryAdvances(course, body, k, |body|);
      MarkedByRule(course[k - 1], body[k - 1], course[k], t);
    }
  }

  /** The progress of a block before, between and after its attestations. */
  ghost function CourseOf(H: Hasher, s: State, b: Block): seq<Progress> {
    seq(|b.body| + 1, j requires 0 <= j < |b.body| + 1 => Midway(H, s, b, j))
  }

  lemma BlockIsCourse(H: Hasher, s: State, b: Block)
    requires CollisionFree(H) && (s, b) in AcceptedOn(H)
    ensures IsCourse(CourseOf(H, s, b), b.body)
  {
    forall j: nat | j < |b.body| ensures StepAt(CourseOf(H, s, b), b.body, j) {
      BlockRule(H, s, b, j);
      BoundaryStep(H, s, b, j);
    }
  }

  ghost predicate JustifiedIn(H: Hasher, s: State, b: Block, t: Slot) {
    exists j :: 0 <= j < |b.body| && Justified(Midway(H, s, b, j), b.body[j], t)
  }

  lemma CourseJustifies(H: Hasher, s: State, b: Block, course: seq<Progress>, t: Slot)
    requires course == CourseOf(H, s, b) && exists j :: 0 <= j < |b.body| && Justified(course[j], b.body[j], t)
    ensures JustifiedIn(H, s, b, t)
  {
    var j :| 0 <= j < |b.body| && Justified(course[j], b.body[j], t);
    assert course[j] == Midway(H, s, b, j);
  }

  lemma BlockJustifies(H: Hasher, s: State, b: Block, t: Slot)
    requires CollisionFree(H) && (s, b) in AcceptedOn(H)
    requires !Marked(Midway(H, s, b, 0).state, t) && Marked(Midway(H, s, b, |b.body|).state, t)
    requires Midway(H, s, b, |b.body|).state.finalized.slot < t
    ensures JustifiedIn(H, s, b, t)
  {
    var course := CourseOf(H, s, b);
    BlockIsCourse(H, s, b);
    FindJustification(course, b.body, |b.body|, t);
    CourseJustifies(H, s, b, course, t);
  }

  lemma EndMarks(H: Hasher, s: State, b: Block, t: Slot)
    requires CollisionFree(H) && (s, b) in AcceptedOn(H)
    ensures Marked(Midway(H, s, b, 0).state, t) <==> Marked(s, t)
    ensures Marked(Midway(H, s, b, |b.body|).state, t) <==> Marked(StateTransition(H, s, b).value, t)
    ensures Midway(H, s, b, |b.body|).state.finalized == StateTransition(H, s, b).value.finalized
  {
    BlockStarts(H, s, b);
    BlockEnds(H, s, b);
  }

  /** In every run: a slot above the boundary that a block newly justifies was the target of a quorum in that
      block, and was scheduled after what was finalized at that moment. */
  lemma NewlyJustifiedWasScheduled(H: Hasher, states: seq<State>, blocks: seq<Block>, i: nat, t: Slot)
    requires CollisionFree(H) && IsRun(H, states, blocks) && Inv(H, states[0]) && i < |blocks|
    requires !Marked(states[i], t) && Marked(states[i + 1], t) && states[i + 1].finalized.slot < t
    ensures JustifiedIn(H, states[i], blocks[i], t)
  {
    RunKeepsInv(H, states, blocks, i);
    assert Accepted(H, states, blocks, i);
    EndMarks(H, states[i], blocks[i], t);
    BlockJustifies(H, states[i], blocks[i], t);
  }

  /** In every run: each attestation of each block follows the rule, from the parent's boundary to the block's. */
  lemma RunFollowsRule(H: Hasher, states: seq<State>, blocks: seq<Block>, i: nat, j: nat)
    requires CollisionFree(H) && IsRun(H, states, blocks) && Inv(H, states[0]) && i < |blocks| && j < |blocks[i].body|
    ensures Midway(H, states[i], blocks[i], 0).state.finalized.slot == states[i].finalized.slot
    ensures FollowsRule(Midway(H, states[i], blocks[i], j), blocks[i].body[j], Midway(H, states[i], blocks[i], j + 1))
    ensures Midway(H, states[i], blocks[i], |blocks[i].body|).state.finalized == states[i + 1].finalized
  {
    RunKeepsInv(H, states, blocks, i);
    assert Accepted(H, states, blocks, i);
    BlockStarts(H, states[i], blocks[i]);
    BlockRule(H, states[i], blocks[i], j);
    BlockEnds(H, states[i], blocks[i]);
  }

  /** Slot 7 after finalized slot 0: above 5, neither square nor pronic. */
  lemma SevenIsUnscheduled()
    ensures !ScheduledAfter(7, 0)
  {
    assert Square(2) == 4 && Square(3) == 9 && Pronic(2) == 6 && Pronic(3) == 12;
    NoSquareBetween(7, 2);
    NoPronicBetween(7, 2);
  }
}
