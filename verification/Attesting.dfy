/** What a validator attests to: the walk back from the head, and why the result passes validation. */
module Attesting {
  import opened Types
  import opened Justifiability
  import opened ForkChoice
  import opened Store
  import opened StoreSafety

  const JUSTIFICATION_LOOKBACK_SLOTS: nat := 3

  /** At most `steps` parents back, while above the safe target's slot. */
  function LookBack(headers: map<Root, Header>, r: Root, safeSlot: Slot, steps: nat): Root
    decreases steps
  {
    if steps == 0 || r !in headers || headers[r].slot <= safeSlot then r
    else LookBack(headers, headers[r].parentRoot, safeSlot, steps - 1)
  }

  /** Back to the first block that is finalized already or at a justifiable slot. */
  function ToJustifiable(headers: map<Root, Header>, r: Root, finalized: Slot): Root
    decreases if r in headers then headers[r].slot else 0
  {
    if r !in headers || headers[r].slot <= finalized || JustifiableAfter(headers[r].slot, finalized) then r
    else
      var p := headers[r].parentRoot;
      if p in headers && headers[p].slot < headers[r].slot then ToJustifiable(headers, p, finalized) else r
  }

  function SlotAt(headers: map<Root, Header>, r: Root): Slot {
    if r in headers then headers[r].slot else 0
  }

  function WalkedTo(s: Store): Root {
    ToJustifiable(s.headers,
                  LookBack(s.headers, s.head, SlotAt(s.headers, s.safeTarget), JUSTIFICATION_LOOKBACK_SLOTS),
                  s.finalized.slot)
  }

  /** The target: where the walk ends, but never behind the justified checkpoint. */
  function AttestationTarget(s: Store): Checkpoint {
    var r := WalkedTo(s);
    if SlotAt(s.headers, r) < s.justified.slot then s.justified else Checkpoint(r, SlotAt(s.headers, r))
  }

  function ProduceAttestationData(s: Store, slot: Slot): AttestationData {
    AttestationData(slot, Checkpoint(s.head, SlotAt(s.headers, s.head)), AttestationTarget(s), s.justified)
  }

  /** The tree of all imported blocks, live or not. */
  function Tree(s: Store): BlockTree {
    map r | r in s.states :: RefOf(s.states[r].header)
  }

  lemma TreeIncreases(H: Hasher, a: Root, s: Store)
    requires CollisionFree(H) && s in Sane(H, a)
    ensures SlotIncreasing(Tree(s))
  {
    ParentOfAnchorIsOlder(H, a, s.states);
    forall r: Root ensures LinkUp(Tree(s), r) {
      if r in Tree(s) && Tree(s)[r].parent in Tree(s) {
        assert NodeSound(H, a, s.states, r);
      }
    }
  }

  /** A block above the anchor's slot has its parent stored, at a lower slot. */
  lemma ParentStored(H: Hasher, a: Root, s: Store, r: Root)
    requires s in Sane(H, a) && r in s.states && s.states[a].header.slot < s.states[r].header.slot
    ensures r in s.headers && s.headers[r] == s.states[r].header
    ensures var p := s.headers[r].parentRoot;
            && p in s.states && p in s.headers
            && s.headers[p] == s.states[p].header && s.headers[p].slot < s.headers[r].slot
  {
    assert NodeSound(H, a, s.states, r);
  }

  lemma AtOrAboveAnchor(H: Hasher, a: Root, s: Store, r: Root)
    requires s in Sane(H, a) && r in s.states
    ensures s.states[a].header.slot <= s.states[r].header.slot && r in s.headers && s.headers[r] == s.states[r].header
  {
    assert NodeSound(H, a, s.states, r);
  }

  lemma ParentIsAncestor(s: Store, r: Root, head: Root)
    requires SlotIncreasing(Tree(s)) && r in s.states && IsAncestor(Tree(s), r, head)
    ensures IsAncestor(Tree(s), s.states[r].header.parentRoot, head)
  {
    assert LinkUp(Tree(s), r);
    var p := Tree(s)[r].parent;
    assert IsAncestor(Tree(s), p, p);
    AncestorTransitive(Tree(s), p, r, head);
  }

  lemma {:induction false} LookBackSound(H: Hasher, a: Root, s: Store, r: Root, safeSlot: Slot, steps: nat)
    requires CollisionFree(H) && s in Sane(H, a) && SlotIncreasing(Tree(s))
    requires r in s.states && s.states[a].header.slot <= safeSlot && IsAncestor(Tree(s), r, s.head)
    ensures LookBack(s.headers, r, safeSlot, steps) in s.states
    ensures IsAncestor(Tree(s), LookBack(s.headers, r, safeSlot, steps), s.head)
    decreases steps
  {
    AtOrAboveAnchor(H, a, s, r);
    if steps > 0 && s.headers[r].slot > safeSlot {
      ParentStored(H, a, s, r);
      ParentIsAncestor(s, r, s.head);
      LookBackSound(H, a, s, s.headers[r].parentRoot, safeSlot, steps - 1);
    }
  }

  lemma {:induction false} ToJustifiableSound(H: Hasher, a: Root, s: Store, r: Root)
    requires CollisionFree(H) && s in Sane(H, a) && SlotIncreasing(Tree(s))
    requires r in s.states && IsAncestor(Tree(s), r, s.head)
    ensures var q := ToJustifiable(s.headers, r, s.finalized.slot);
            && q in s.states && IsAncestor(Tree(s), q, s.head)
            && (s.states[q].header.slot <= s.finalized.slot ||
                JustifiableAfter(s.states[q].header.slot, s.finalized.slot))
    decreases s.states[r].header.slot
  {
    AtOrAboveAnchor(H, a, s, r);
    if s.headers[r].slot > s.finalized.slot && !JustifiableAfter(s.headers[r].slot, s.finalized.slot) {
      ParentStored(H, a, s, r);
      ParentIsAncestor(s, r, s.head);
      ToJustifiableSound(H, a, s, s.headers[r].parentRoot);
    }
  }

  lemma {:induction false} LiveAncestorInTree(H: Hasher, a: Root, s: Store, x: Root, r: Root)
    requires CollisionFree(H) && s in Sane(H, a) && SlotIncreasing(Tree(s)) && SlotIncreasing(s.live)
    requires IsAncestor(s.live, x, r)
    ensures IsAncestor(Tree(s), x, r)
    decreases Height(s.live, r)
  {
    if x != r {
      assert LinkUp(s.live, r) && LinkUp(Tree(s), r);
      LiveAncestorInTree(H, a, s, x, s.live[r].parent);
    }
  }

  /** The target is a known block on the head's chain, not behind the justified slot, and unless it is
      the justified checkpoint itself, at a slot that can be justified. */
  lemma TargetSound(H: Hasher, a: Root, s: Store)
    requires CollisionFree(H) && s in Sane(H, a)
    ensures SlotIncreasing(Tree(s))
    ensures var t := AttestationTarget(s);
            && t.root in s.headers && s.headers[t.root].slot == t.slot
            && s.justified.slot <= t.slot <= SlotAt(s.headers, s.head)
            && IsAncestor(Tree(s), t.root, s.head)
            && (t == s.justified || JustifiableAfter(t.slot, s.finalized.slot))
  {
    TreeIncreases(H, a, s);
    SaneFacts(H, a, s);
    AtOrAboveAnchor(H, a, s, s.safeTarget);
    AtOrAboveAnchor(H, a, s, s.justified.root);
    AtOrAboveAnchor(H, a, s, s.head);
    LiveAncestorInTree(H, a, s, s.justified.root, s.head);
    var safeSlot := SlotAt(s.headers, s.safeTarget);
    LookBackSound(H, a, s, s.head, safeSlot, JUSTIFICATION_LOOKBACK_SLOTS);
    var b := LookBack(s.headers, s.head, safeSlot, JUSTIFICATION_LOOKBACK_SLOTS);
    ToJustifiableSound(H, a, s, b);
    AtOrAboveAnchor(H, a, s, WalkedTo(s));
    AncestorBelow(Tree(s), AttestationTarget(s).root, s.head);
  }

  /** What a node produces for a slot passes its own validation exactly when the slot is at most one ahead. */
  lemma ProducedIsValid(H: Hasher, a: Root, s: Store, slot: Slot)
    requires CollisionFree(H) && s in Sane(H, a)
    ensures ValidateAttestationData(s, ProduceAttestationData(s, slot)) == None
       <==> slot <= s.time / INTERVALS_PER_SLOT + 1
  {
    TargetSound(H, a, s);
    SaneFacts(H, a, s);
    AtOrAboveAnchor(H, a, s, s.justified.root);
    AtOrAboveAnchor(H, a, s, s.head);
  }

  // The target in terms of generations

  /** The `k`-th parent of `r` by stored headers. */
  ghost function Generation(headers: map<Root, Header>, r: Root, k: nat): Root {
    if k == 0 then r
    else
      var p := Generation(headers, r, k - 1);
      if p in headers then headers[p].parentRoot else p
  }

  lemma {:induction false} GenerationShifts(headers: map<Root, Header>, r: Root, k: nat)
    requires r in headers
    ensures Generation(headers, headers[r].parentRoot, k) == Generation(headers, r, k + 1)
  {
    if k > 0 {
      GenerationShifts(headers, r, k - 1);
    } else {
      assert Generation(headers, r, 0) == r;
    }
  }

  ghost predicate HigherThan(headers: map<Root, Header>, r: Root, slot: Slot) {
    r in headers && headers[r].slot > slot
  }

  /** `k` generations back is the first that is at most `slot`, or `most` generations are reached before. */
  ghost predicate FirstDown(headers: map<Root, Header>, r: Root, slot: Slot, most: nat, k: nat) {
    && k <= most && (forall j: nat :: j < k ==> HigherThan(headers, Generation(headers, r, j), slot))
    && (k < most ==> !HigherThan(headers, Generation(headers, r, k), slot))
  }

  lemma {:induction false} LookBackRule(headers: map<Root, Header>, r: Root, safeSlot: Slot, steps: nat)
    returns (k: nat)
    ensures FirstDown(headers, r, safeSlot, steps, k)
    ensures LookBack(headers, r, safeSlot, steps) == Generation(headers, r, k)
    decreases steps
  {
    if steps == 0 || !HigherThan(headers, r, safeSlot) {
      k := 0;
    } else {
      var p := headers[r].parentRoot;
      var j := LookBackRule(headers, p, safeSlot, steps - 1);
      k := j + 1;
      GenerationShifts(headers, r, j);
      forall i: nat | i < k ensures HigherThan(headers, Generation(headers, r, i), safeSlot) {
        if i > 0 { GenerationShifts(headers, r, i - 1); }
      }
    }
  }

  /** A slot a vote can be for: not above the boundary, or scheduled after it. */
  ghost predicate Votable(slot: Slot, finalized: Slot) {
    slot <= finalized || ScheduledAfter(slot, finalized)
  }

  /** `m` generations back is the first stored block at a votable slot. */
  ghost predicate FirstVotable(headers: map<Root, Header>, r: Root, finalized: Slot, m: nat) {
    && (forall j: nat :: j < m ==>
          Generation(headers, r, j) in headers && !Votable(headers[Generation(headers, r, j)].slot, finalized))
    && Generation(headers, r, m) in headers && Votable(headers[Generation(headers, r, m)].slot, finalized)
  }

  lemma SlotWithinLimit(H: Hasher, a: Root, s: Store, r: Root)
    requires s in Sane(H, a) && r in s.states
    ensures r in s.headers && s.headers[r].slot <= HISTORICAL_ROOTS_LIMIT
  {
    assert NodeSound(H, a, s.states, r);
  }

  lemma {:induction false} ToJustifiableRule(H: Hasher, a: Root, s: Store, r: Root) returns (m: nat)
    requires CollisionFree(H) && s in Sane(H, a) && r in s.states
    ensures FirstVotable(s.headers, r, s.finalized.slot, m)
    ensures ToJustifiable(s.headers, r, s.finalized.slot) == Generation(s.headers, r, m)
    decreases s.states[r].header.slot
  {
    var headers, finalized := s.headers, s.finalized.slot;
    AtOrAboveAnchor(H, a, s, r);
    SlotWithinLimit(H, a, s, r);
    ScheduleWithinHistory(headers[r].slot, finalized);
    if Votable(headers[r].slot, finalized) {
      m := 0;
    } else {
      ParentStored(H, a, s, r);
      var p := headers[r].parentRoot;
      var j := ToJustifiableRule(H, a, s, p);
      m := j + 1;
      VotableShifts(headers, r, finalized, j);
    }
  }

  lemma VotableShifts(headers: map<Root, Header>, r: Root, finalized: Slot, j: nat)
    requires r in headers && !Votable(headers[r].slot, finalized)
    requires FirstVotable(headers, headers[r].parentRoot, finalized, j)
    ensures FirstVotable(headers, r, finalized, j + 1)
    ensures Generation(headers, headers[r].parentRoot, j) == Generation(headers, r, j + 1)
  {
    GenerationShifts(headers, r, j);
    forall i: nat | i < j + 1
      ensures Generation(headers, r, i) in headers && !Votable(headers[Generation(headers, r, i)].slot, finalized)
    {
      if i > 0 { GenerationShifts(headers, r, i - 1); }
    }
  }

  /** What a validator attests to: at most three generations back from the head, stopping at the safe target's
      slot; from there the nearest votable block; or the justified checkpoint if that is behind it. */
  ghost predicate IsTarget(s: Store, target: Checkpoint) {
    s.safeTarget in s.headers &&
    exists k, m ::
      var base := Generation(s.headers, s.head, k);
      var r := Generation(s.headers, base, m);
      && FirstDown(s.headers, s.head, s.headers[s.safeTarget].slot, 3, k)
      && FirstVotable(s.headers, base, s.finalized.slot, m)
      && target == if s.headers[r].slot < s.justified.slot then s.justified else Checkpoint(r, s.headers[r].slot)
  }

  /** The computed target is that one. */
  lemma TargetRule(H: Hasher, a: Root, s: Store)
    requires CollisionFree(H) && s in Sane(H, a)
    ensures IsTarget(s, AttestationTarget(s))
  {
    var k := TargetBase(H, a, s);
    var base := Generation(s.headers, s.head, k);
    var m := ToJustifiableRule(H, a, s, base);
    assert FirstVotable(s.headers, base, s.finalized.slot, m);
  }

  lemma TargetBase(H: Hasher, a: Root, s: Store) returns (k: nat)
    requires CollisionFree(H) && s in Sane(H, a)
    ensures s.safeTarget in s.headers && FirstDown(s.headers, s.head, s.headers[s.safeTarget].slot, 3, k)
    ensures var safeSlot := SlotAt(s.headers, s.safeTarget);
            LookBack(s.headers, s.head, safeSlot, JUSTIFICATION_LOOKBACK_SLOTS) == Generation(s.headers, s.head, k)
    ensures Generation(s.headers, s.head, k) in s.states
  {
    TreeIncreases(H, a, s);
    SaneFacts(H, a, s);
    AtOrAboveAnchor(H, a, s, s.safeTarget);
    LookBackSound(H, a, s, s.head, SlotAt(s.headers, s.safeTarget), 3);
    k := LookBackRule(s.headers, s.head, SlotAt(s.headers, s.safeTarget), 3);
  }
}
