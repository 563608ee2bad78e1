/** Ticking: after a long pause the client jumps to one slot before the target and ticks five times.
    That ends in the same store as ticking through every interval. */
module FastForward {
  import opened Types
  import opened ForkChoice
  import opened Payloads
  import opened Store
  import opened StoreSafety

  /** One tick on the way to `target`; a proposal is signalled on the last one only. */
  ghost predicate NextTick(s: Store, target: nat, hasProposal: bool, aggregates: seq<Entry>, s': Store) {
    TickStep(s, hasProposal && s.time + 1 == target, aggregates, s')
  }

  /** Consecutive stores on the way to `target`, one tick apart. */
  ghost predicate Ticking(trace: seq<Store>, target: nat, hasProposal: bool, aggregates: seq<Entry>) {
    && trace != []
    && forall i, j :: 0 <= i && j == i + 1 < |trace| ==> NextTick(trace[i], target, hasProposal, aggregates, trace[j])
  }

  lemma OneMoreTick(trace: seq<Store>, target: nat, hasProposal: bool, aggregates: seq<Entry>, s: Store)
    requires Ticking(trace, target, hasProposal, aggregates)
    requires NextTick(trace[|trace| - 1], target, hasProposal, aggregates, s)
    ensures Ticking(trace + [s], target, hasProposal, aggregates)
  {
  }

  /** More than a slot behind, the clock is set to one slot before the target. */
  function JumpAhead(s: Store, target: nat): Store {
    if target > s.time + INTERVALS_PER_SLOT then SetTime(s, target - INTERVALS_PER_SLOT) else s
  }

  /** The ticks of one handler call: from where the jump lands up to `target`. */
  ghost predicate TicksTo(s: Store, trace: seq<Store>, target: nat, hasProposal: bool, aggregates: seq<Entry>) {
    && Ticking(trace, target, hasProposal, aggregates)
    && trace[0] == s && |trace| == 1 + if target > s.time then target - s.time else 0
  }

  lemma {:induction false} TickingSane(H: Hasher, a: Root, trace: seq<Store>, target: nat, hasProposal: bool,
                                       aggregates: seq<Entry>, i: nat)
    requires CollisionFree(H) && Ticking(trace, target, hasProposal, aggregates) && trace[0] in Sane(H, a)
    requires i < |trace|
    ensures trace[i] in Sane(H, a) && trace[i].time == trace[0].time + i
    ensures trace[i].justified == trace[0].justified && trace[i].finalized == trace[0].finalized
    ensures trace[i].states == trace[0].states && trace[i].live == trace[0].live
  {
    if i > 0 {
      TickingSane(H, a, trace, target, hasProposal, aggregates, i - 1);
      assert NextTick(trace[i - 1], target, hasProposal, aggregates, trace[i]);
      TickStepSound(H, a, trace[i - 1], hasProposal && trace[i - 1].time + 1 == target, aggregates, trace[i]);
    }
  }

  /** The clock ends at the later of the two times. */
  lemma ClockEndsAtLater(H: Hasher, a: Root, s: Store, trace: seq<Store>, target: nat, hasProposal: bool,
                         aggregates: seq<Entry>)
    requires CollisionFree(H) && s in Sane(H, a)
    requires TicksTo(JumpAhead(s, target), trace, target, hasProposal, aggregates)
    ensures var last := trace[|trace| - 1];
            && last in Sane(H, a) && last.time == (if target > s.time then target else s.time)
            && last.justified == s.justified && last.finalized == s.finalized
  {
    SaneFacts(H, a, s);
    StaysSane(H, a, s, JumpAhead(s, target).time, s.data, s.newPayloads);
    TickingSane(H, a, trace, target, hasProposal, aggregates, |trace| - 1);
  }

  /** More than a slot behind, exactly five ticks are run, from five intervals before the target; otherwise one
      per missed interval. */
  lemma TicksAfterJump(s: Store, trace: seq<Store>, target: nat, hasProposal: bool, aggregates: seq<Entry>)
    requires TicksTo(JumpAhead(s, target), trace, target, hasProposal, aggregates)
    ensures if target > s.time + 5 then |trace| == 6 && trace[0] == s.(time := target - 5)
            else trace[0] == s && |trace| == 1 + if target > s.time then target - s.time else 0
  {
  }

  predicate InPhase(from: nat, i: nat, phase: nat) {
    1 <= i <= INTERVALS_PER_SLOT && Interval(from + i) == phase
  }

  /** How many ticks to the next occurrence of a phase. */
  function NextPhase(from: nat, phase: nat): nat
    requires phase < INTERVALS_PER_SLOT
  {
    if phase > Interval(from) then phase - Interval(from) else phase + INTERVALS_PER_SLOT - Interval(from)
  }

  lemma NextPhaseIs(from: nat, phase: nat)
    requires phase < INTERVALS_PER_SLOT
    ensures InPhase(from, NextPhase(from, phase), phase)
  {
  }

  lemma PhaseAt(from: nat, i: nat)
    requires 1 <= i <= INTERVALS_PER_SLOT
    ensures i == NextPhase(from, Interval(from + i))
  {
  }

  /** Five consecutive ticks meet every interval of a slot exactly once. */
  lemma EveryPhaseOnce(from: nat, phase: nat)
    requires phase < INTERVALS_PER_SLOT
    ensures exists i: nat :: InPhase(from, i, phase) && forall j: nat :: InPhase(from, j, phase) ==> j == i
  {
    NextPhaseIs(from, phase);
    forall j: nat | InPhase(from, j, phase) ensures j == NextPhase(from, phase) {
      PhaseAt(from, j);
    }
  }

  // The store after any number of ticks

  ghost function AllKeys(s: Store): set<SignatureKey> { Keys(s.knownPayloads) + Keys(s.newPayloads) }

  ghost function AllVotes(s: Store): Votes { Latest(AllKeys(s), s.data) }

  /** Promotion evicts nothing, and nobody has two different votes of its highest slot. */
  ghost predicate Calm(s: Store) {
    |s.knownPayloads| + |s.newPayloads| <= AGGREGATED_PAYLOAD_CAP && NoTopTies(AllKeys(s), s.data)
  }

  ghost function CalmOnes(): iset<Store> {
    iset s: Store | Calm(s)
  }

  /** `s` at a later time, with its payloads promoted or not, and its safe target updated or not. */
  ghost function Shape(s: Store, time: nat, promoted: bool, safe: bool): Store
    requires SlotIncreasing(s.live) && s.head in s.states
  {
    s.(time := time,
       knownPayloads := if promoted then s.knownPayloads + s.newPayloads else s.knownPayloads,
       newPayloads := if promoted then [] else s.newPayloads,
       head := if promoted then Head(s, AllVotes(s), 0) else s.head,
       safeTarget := if safe then Head(s, AllVotes(s), TwoThirds(|s.states[s.head].validators|)) else s.safeTarget)
  }

  lemma ShapeKeys(s: Store, time: nat, promoted: bool, safe: bool)
    requires Calm(s) && SlotIncreasing(s.live) && s.head in s.states
    ensures var t := Shape(s, time, promoted, safe);
            && AllKeys(t) == AllKeys(s) && Keys(Promote(t).knownPayloads) == AllKeys(s)
            && Promote(t) == t.(knownPayloads := s.knownPayloads + s.newPayloads, newPayloads := [])
  {
    KeysOfConcat(s.knownPayloads, s.newPayloads);
    assert s.knownPayloads + s.newPayloads + [] == s.knownPayloads + s.newPayloads;
  }

  /** Whatever the head, the threshold is taken over the same number of validators. */
  lemma ShapeValidators(H: Hasher, a: Root, s: Store, time: nat, promoted: bool, safe: bool)
    requires CollisionFree(H) && s in Sane(H, a)
    ensures SlotIncreasing(s.live) && s.head in s.states
    ensures var t := Shape(s, time, promoted, safe);
            t.head in t.states && |t.states[t.head].validators| == |s.states[s.head].validators|
  {
    SaneFacts(H, a, s);
    HeadChoiceSound(H, a, s, AllVotes(s), 0);
    var t := Shape(s, time, promoted, safe);
    assert NodeSound(H, a, s.states, s.head) && NodeSound(H, a, s.states, t.head);
  }

  lemma ShapePromotes(s: Store, time: nat, promoted: bool, safe: bool, s': Store)
    requires s in CalmOnes() && SlotIncreasing(s.live) && s.head in s.states
    requires Accepts(Shape(s, time, promoted, safe), s')
    ensures s' == Shape(s, time, true, safe)
  {
    var t := Shape(s, time, promoted, safe);
    var votes :| HeadVotes(Promote(t), votes) && s' == AcceptNew(t, votes);
    ShapeKeys(s, time, promoted, safe);
    LatestUnique(AllKeys(s), s.data, votes, AllVotes(s));
  }

  lemma ShapeSafe(H: Hasher, a: Root, s: Store, time: nat, promoted: bool, safe: bool, s': Store)
    requires CollisionFree(H) && s in Sane(H, a) && s in CalmOnes() && SlotIncreasing(s.live) && s.head in s.states
    requires var t := Shape(s, time, promoted, safe); t.head in t.states && MovesSafeTarget(t, s')
    ensures s' == Shape(s, time, promoted, true)
  {
    var t := Shape(s, time, promoted, safe);
    var votes :| SafeVotes(t, votes) && s' == UpdateSafeTarget(t, votes);
    ShapeKeys(s, time, promoted, safe);
    ShapeValidators(H, a, s, time, promoted, safe);
    LatestUnique(AllKeys(s), s.data, votes, AllVotes(s));
  }

  lemma ShapeAggregates(H: Hasher, a: Root, s: Store, time: nat, promoted: bool, safe: bool)
    requires CollisionFree(H) && s in Sane(H, a) && SlotIncreasing(s.live) && s.head in s.states
    ensures var t := Shape(s, time, promoted, safe); Newest(t.newPayloads + [], NEW_PAYLOAD_CAP) == t.newPayloads
  {
    SaneFacts(H, a, s);
    var t := Shape(s, time, promoted, safe);
    assert t.newPayloads + [] == t.newPayloads;
  }

  /** Whether the payloads are promoted once the interval of `time` has run. */
  predicate NowPromoted(before: bool, time: nat, signal: bool) {
    before || Interval(time) == 4 || (Interval(time) == 0 && signal)
  }

  predicate NowSafe(before: bool, time: nat) {
    before || Interval(time) == 3
  }

  /** What the interval that `t` is at can lead to, for a node that does not aggregate. */
  ghost function Images(t: Store, signal: bool): iset<Store>
    requires SlotIncreasing(t.live) && t.head in t.states
  {
    iset s: Store | Phase(t, signal, [], s)
  }

  lemma TickImage(t: Store, target: nat, hasProposal: bool, s': Store, time: nat)
    requires NextTick(t, target, hasProposal, [], s') && time == t.time + 1
    ensures s' in Images(SetTime(t, time), hasProposal && time == target)
  {
  }

  /** The work of an interval leads from a shape to a shape. */
  lemma ShapePhase(H: Hasher, a: Root, s: Store, time: nat, promoted: bool, safe: bool, signal: bool, t: Store,
                   s': Store,
                   promoted': bool, safe': bool)
    requires CollisionFree(H) && s in Sane(H, a) && s in CalmOnes()
    requires SlotIncreasing(s.live) && s.head in s.states
    requires t == Shape(s, time, promoted, safe) && t.head in t.states && s' in Images(t, signal)
    requires promoted' == NowPromoted(promoted, time, signal) && safe' == NowSafe(safe, time)
    ensures s' == Shape(s, time, promoted', safe')
  {
    match Interval(time) {
      case 0 => if signal { ShapePromotes(s, time, promoted, safe, s'); }
      case 1 =>
      case 2 => ShapeAggregates(H, a, s, time, promoted, safe);
      case 3 => ShapeSafe(H, a, s, time, promoted, safe, s');
      case _ => ShapePromotes(s, time, promoted, safe, s');
    }
  }

  lemma ShapeLater(s: Store, time: nat, time': nat, promoted: bool, safe: bool)
    requires SlotIncreasing(s.live) && s.head in s.states
    ensures Shape(s, time, promoted, safe).time == time
    ensures SetTime(Shape(s, time, promoted, safe), time') == Shape(s, time', promoted, safe)
  {
  }

  predicate Promotes(from: nat, k: nat, target: nat, hasProposal: bool) {
    k > 0 && NowPromoted(Promotes(from, k - 1, target, hasProposal), from + k, hasProposal && from + k == target)
  }

  predicate UpdatesSafe(from: nat, k: nat) {
    k > 0 && NowSafe(UpdatesSafe(from, k - 1), from + k)
  }

  /** A slot's worth of ticks, or more, promotes the payloads and updates the safe target. */
  lemma SlotDoesBoth(from: nat, k: nat, target: nat, hasProposal: bool)
    requires k >= INTERVALS_PER_SLOT
    ensures Promotes(from, k, target, hasProposal) && UpdatesSafe(from, k)
  {
    NextPhaseIs(from, 4);
    NextPhaseIs(from, 3);
    PromotesBy(from, k, target, hasProposal, NextPhase(from, 4));
    UpdatesSafeBy(from, k, NextPhase(from, 3));
  }

  lemma {:induction false} PromotesBy(from: nat, k: nat, target: nat, hasProposal: bool, i: nat)
    requires 1 <= i <= k && Interval(from + i) == 4
    ensures Promotes(from, k, target, hasProposal)
  {
    if i < k { PromotesBy(from, k - 1, target, hasProposal, i); }
  }

  lemma {:induction false} UpdatesSafeBy(from: nat, k: nat, i: nat)
    requires 1 <= i <= k && Interval(from + i) == 3
    ensures UpdatesSafe(from, k)
  {
    if i < k { UpdatesSafeBy(from, k - 1, i); }
  }

  /** `t` is `s` after `k` ticks from time `from`. */
  ghost predicate IsAfter(s: Store, from: nat, k: nat, target: nat, hasProposal: bool, t: Store) {
    && SlotIncreasing(s.live) && s.head in s.states
    && t == Shape(s, from + k, Promotes(from, k, target, hasProposal), UpdatesSafe(from, k))
  }

  lemma FlagsAfterOneMore(from: nat, k: nat, target: nat, hasProposal: bool, time: nat)
    requires time == from + (k + 1)
    ensures Promotes(from, k + 1, target, hasProposal)
         == NowPromoted(Promotes(from, k, target, hasProposal), time, hasProposal && time == target)
    ensures UpdatesSafe(from, k + 1) == NowSafe(UpdatesSafe(from, k), time)
  {
  }

  lemma AfterPhase(H: Hasher, a: Root, s: Store, t: Store, from: nat, k: nat, target: nat, hasProposal: bool,
                   time: nat, s': Store)
    requires CollisionFree(H) && s in Sane(H, a) && s in CalmOnes()
    requires SlotIncreasing(s.live) && s.head in s.states && time == from + (k + 1)
    requires t == Shape(s, time, Promotes(from, k, target, hasProposal), UpdatesSafe(from, k))
    requires t.head in t.states && s' in Images(t, hasProposal && time == target)
    ensures IsAfter(s, from, k + 1, target, hasProposal, s')
  {
    FlagsAfterOneMore(from, k, target, hasProposal, time);
    ShapePhase(H, a, s, time, Promotes(from, k, target, hasProposal), UpdatesSafe(from, k),
               hasProposal && time == target, t, s',
               Promotes(from, k + 1, target, hasProposal), UpdatesSafe(from, k + 1));
  }

  /** One more tick. */
  lemma AfterTick(H: Hasher, a: Root, s: Store, t: Store, from: nat, k: nat, target: nat, hasProposal: bool, s': Store)
    requires CollisionFree(H) && s in Sane(H, a) && s in CalmOnes()
    requires IsAfter(s, from, k, target, hasProposal, t) && NextTick(t, target, hasProposal, [], s')
    ensures IsAfter(s, from, k + 1, target, hasProposal, s')
  {
    var time := from + (k + 1);
    ShapeLater(s, from + k, time, Promotes(from, k, target, hasProposal), UpdatesSafe(from, k));
    TickImage(t, target, hasProposal, s', time);
    AfterPhase(H, a, s, SetTime(t, time), from, k, target, hasProposal, time, s');
  }

  /** Whatever votes each tick reads, the store along the way is determined. */
  lemma {:induction false} TickingShape(H: Hasher, a: Root, s: Store, trace: seq<Store>, from: nat, target: nat,
                                        hasProposal: bool, k: nat)
    requires CollisionFree(H) && s in Sane(H, a) && s in CalmOnes()
    requires Ticking(trace, target, hasProposal, []) && trace[0] == SetTime(s, from) && k < |trace|
    ensures IsAfter(s, from, k, target, hasProposal, trace[k])
  {
    if k == 0 {
      SaneFacts(H, a, s);
    } else {
      TickingShape(H, a, s, trace, from, target, hasProposal, k - 1);
      assert NextTick(trace[k - 1], target, hasProposal, [], trace[k]);
      AfterTick(H, a, s, trace[k - 1], from, k - 1, target, hasProposal, trace[k]);
    }
  }

  /** For a node that does not aggregate, jumping ahead and ticking five times ends in the same store as
      ticking through every interval: same clock, payloads, head and safe target. */
  lemma FastForwardIsReplay(H: Hasher, a: Root, s: Store, target: nat, hasProposal: bool, fast: seq<Store>,
                            full: seq<Store>)
    requires CollisionFree(H) && s in Sane(H, a) && Calm(s)
    requires target > s.time + INTERVALS_PER_SLOT
    requires TicksTo(JumpAhead(s, target), fast, target, hasProposal, [])
    requires TicksTo(s, full, target, hasProposal, [])
    ensures fast[|fast| - 1] == full[|full| - 1]
  {
    SaneFacts(H, a, s);
    assert SetTime(s, s.time) == s;
    TickingShape(H, a, s, full, s.time, target, hasProposal, target - s.time);
    TickingShape(H, a, s, fast, target - 5, target, hasProposal, 5);
    SlotDoesBoth(s.time, target - s.time, target, hasProposal);
    SlotDoesBoth(target - 5, 5, target, hasProposal);
  }
}
