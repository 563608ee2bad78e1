/** Building a block: collect votes until no more apply, cover them with proofs, seal the state root. */
module BlockBuilder {
  import opened Types
  import opened Payloads
  import opened Store
  import opened ProofSelection
  import opened Bookkeeping
  import opened VoteMatrix
  import T = Transition
  import Machine

  /** What a block is built from. */
  datatype Plan = Plan(head: State, slot: Slot, proposer: ValidatorIndex, parentRoot: Root,
                       available: seq<ValidatorVote>, known: set<Root>, table: ProofTable)

  datatype Built = Built(block: Block, post: State, proofs: seq<Proof>)

  function Candidate(plan: Plan, body: Body): Block {
    Block(plan.slot, plan.proposer, plan.parentRoot, ZERO, body)
  }

  method ApplyTo(H: Hasher, head: State, b: Block) returns (r: Result<State, T.Error>)
    requires CollisionFree(H) && Inv(H, head)
    ensures r == T.ApplyBlock(H, head, b)
  {
    var post := new Machine.ConsensusState(head);
    var e := post.ProcessSlots(H, b.slot);
    if e.Some? {
      return Err(e.value);
    }
    SlotsKeepInv(H, head, b.slot);
    e := post.ProcessBlock(H, b);
    if e.Some? {
      return Err(e.value);
    }
    return Ok(post.View());
  }

  /** Whether the candidate applies, and the error if it does not, depend on its header only. */
  lemma BodyDoesNotMatter(H: Hasher, plan: Plan, body: Body)
    requires CollisionFree(H) && Inv(H, plan.head)
    ensures T.ApplyBlock(H, plan.head, Candidate(plan, body)).Ok? <==> Admissible(H, plan.head, Candidate(plan, []))
    ensures T.ApplyBlock(H, plan.head, Candidate(plan, body)).Err? ==>
              T.ApplyBlock(H, plan.head, Candidate(plan, body)) == T.ApplyBlock(H, plan.head, Candidate(plan, []))
  {
    AppliesIffAdmissible(H, plan.head, Candidate(plan, body));
    AppliesIffAdmissible(H, plan.head, Candidate(plan, []));
    ErrorIsHeaders(H, plan.head, Candidate(plan, body));
    ErrorIsHeaders(H, plan.head, Candidate(plan, []));
  }

  /** A vote the next round may add: about a known head, from the justified checkpoint, and provable. */
  predicate Eligible(H: Hasher, plan: Plan, justified: Checkpoint, a: ValidatorVote) {
    a.data.head.root in plan.known && a.data.source == justified && KeyOf(H, a) in plan.table
  }

  function KeySet(H: Hasher, votes: seq<ValidatorVote>): set<SignatureKey> {
    set a | a in votes :: KeyOf(H, a)
  }

  /** A collection under way: votes taken from those available, each provable, none twice. */
  ghost predicate Collected(H: Hasher, plan: Plan, included: seq<ValidatorVote>) {
    && (forall a :: a in included ==> a in plan.available && KeyOf(H, a) in plan.table)
    && |KeySet(H, included)| == |included|
  }

  lemma {:induction false} KeySetSize(H: Hasher, votes: seq<ValidatorVote>)
    ensures |KeySet(H, votes)| <= |votes|
  {
    if votes == [] {
      assert KeySet(H, votes) == {};
    } else {
      var k := |votes| - 1;
      KeySetSize(H, votes[..k]);
      assert votes == votes[..k] + [votes[k]];
      assert KeySet(H, votes) == KeySet(H, votes[..k]) + {KeyOf(H, votes[k])};
    }
  }

  lemma CollectedBounded(H: Hasher, plan: Plan, included: seq<ValidatorVote>)
    requires Collected(H, plan, included)
    ensures |included| <= |plan.available|
  {
    KeySetSize(H, plan.available);
    var a, b := KeySet(H, included), KeySet(H, plan.available);
    assert b == a + (b - a);
  }

  lemma CollectOne(H: Hasher, plan: Plan, included: seq<ValidatorVote>, a: ValidatorVote)
    requires Collected(H, plan, included) && a in plan.available && KeyOf(H, a) in plan.table
    requires KeyOf(H, a) !in KeySet(H, included)
    ensures Collected(H, plan, included + [a])
    ensures KeySet(H, included + [a]) == KeySet(H, included) + {KeyOf(H, a)}
  {
    assert KeySet(H, included + [a]) == KeySet(H, included) + {KeyOf(H, a)};
  }

  /** Every eligible vote is in the collection. */
  ghost predicate Saturated(H: Hasher, plan: Plan, justified: Checkpoint, included: seq<ValidatorVote>) {
    forall a :: a in plan.available && Eligible(H, plan, justified, a) ==> KeyOf(H, a) in KeySet(H, included)
  }

  /** One round: adds each eligible vote not yet there. */
  method AddEligible(H: Hasher, plan: Plan, justified: Checkpoint, included: seq<ValidatorVote>)
    returns (more: seq<ValidatorVote>)
    requires Collected(H, plan, included)
    ensures Collected(H, plan, more) && included <= more
    ensures Saturated(H, plan, justified, more)
    ensures forall i :: |included| <= i < |more| ==> Eligible(H, plan, justified, more[i])
  {
    more := included;
    var keys := KeySet(H, included);
    for i := 0 to |plan.available|
      invariant Collected(H, plan, more) && included <= more && keys == KeySet(H, more)
      invariant forall j :: 0 <= j < i ==> Considered(H, plan, justified, keys, plan.available[j])
      invariant forall j :: |included| <= j < |more| ==> Eligible(H, plan, justified, more[j])
    {
      more, keys := Consider(H, plan, justified, more, keys, plan.available[i]);
    }
    forall a | a in plan.available && Eligible(H, plan, justified, a) ensures KeyOf(H, a) in keys {
      var j :| 0 <= j < |plan.available| && plan.available[j] == a;
      assert Considered(H, plan, justified, keys, plan.available[j]);
    }
  }

  method Consider(H: Hasher, plan: Plan, justified: Checkpoint, votes: seq<ValidatorVote>, keys: set<SignatureKey>,
                  a: ValidatorVote)
    returns (votes': seq<ValidatorVote>, keys': set<SignatureKey>)
    requires Collected(H, plan, votes) && keys == KeySet(H, votes) && a in plan.available
    ensures Collected(H, plan, votes') && keys' == KeySet(H, votes') && keys <= keys'
    ensures votes' == votes || (votes' == votes + [a] && Eligible(H, plan, justified, a))
    ensures Considered(H, plan, justified, keys', a)
  {
    votes', keys' := votes, keys;
    if Eligible(H, plan, justified, a) && KeyOf(H, a) !in keys {
      CollectOne(H, plan, votes, a);
      votes' := votes + [a];
      keys' := keys + {KeyOf(H, a)};
    }
  }

  predicate Considered(H: Hasher, plan: Plan, justified: Checkpoint, keys: set<SignatureKey>, a: ValidatorVote) {
    Eligible(H, plan, justified, a) ==> KeyOf(H, a) in keys
  }

  ghost predicate WithinLimits(plan: Plan) {
    && |plan.available| <= VALIDATOR_REGISTRY_LIMIT
    && forall a :: a in plan.available ==> a.validator < VALIDATOR_REGISTRY_LIMIT
  }

  // The rounds

  /** A round: the collection it starts from, and the checkpoint that its candidate block justifies. */
  datatype Pass = Pass(included: seq<ValidatorVote>, justified: Checkpoint)

  ghost predicate IsPass(H: Hasher, plan: Plan, pass: Pass) {
    exists body ::
      && Aggregates(pass.included, body) && T.ApplyBlock(H, plan.head, Candidate(plan, body)).Ok?
      && T.ApplyBlock(H, plan.head, Candidate(plan, body)).value.justified == pass.justified
  }

  /** `more` adds to the collection exactly what the pass makes eligible, and that is something. */
  ghost predicate Adds(H: Hasher, plan: Plan, pass: Pass, more: seq<ValidatorVote>) {
    && pass.included < more && Saturated(H, plan, pass.justified, more)
    && forall i :: |pass.included| <= i < |more| ==> Eligible(H, plan, pass.justified, more[i])
  }

  ghost predicate PassAt(H: Hasher, plan: Plan, passes: seq<Pass>, i: nat) {
    i < |passes| && IsPass(H, plan, passes[i])
  }

  ghost predicate Linked(H: Hasher, plan: Plan, passes: seq<Pass>, i: nat) {
    i + 1 < |passes| && Adds(H, plan, passes[i], passes[i + 1].included)
  }

  ghost predicate Passes(H: Hasher, plan: Plan, passes: seq<Pass>) {
    && (passes != [] ==> passes[0].included == [])
    && (forall i: nat {:trigger PassAt(H, plan, passes, i)} :: i < |passes| ==> PassAt(H, plan, passes, i))
    && (forall i: nat {:trigger Linked(H, plan, passes, i)} :: i + 1 < |passes| ==> Linked(H, plan, passes, i))
  }

  ghost function PassSequences(H: Hasher, plan: Plan): iset<seq<Pass>> {
    iset passes: seq<Pass> | Passes(H, plan, passes)
  }

  /** The last pass adds nothing. */
  ghost predicate FixedPoint(H: Hasher, plan: Plan, passes: seq<Pass>) {
    && passes in PassSequences(H, plan) && passes != []
    && Saturated(H, plan, passes[|passes| - 1].justified, passes[|passes| - 1].included)
  }

  lemma OneMorePass(H: Hasher, plan: Plan, passes: seq<Pass>, pass: Pass)
    requires passes in PassSequences(H, plan) && IsPass(H, plan, pass)
    requires if passes == [] then pass.included == [] else Adds(H, plan, passes[|passes| - 1], pass.included)
    ensures passes + [pass] in PassSequences(H, plan)
  {
    var more := passes + [pass];
    forall i: nat | i < |more| ensures PassAt(H, plan, more, i) {
      if i < |passes| {
        assert PassAt(H, plan, passes, i);
      }
    }
    forall i: nat | i + 1 < |more| ensures Linked(H, plan, more, i) {
      if i + 1 < |passes| {
        assert Linked(H, plan, passes, i);
      }
    }
  }

  /** The fixed-point loop. Each round but the last adds a vote, so there is at most one more round than votes. */
  method CollectVotes(H: Hasher, plan: Plan) returns (r: Result<seq<ValidatorVote>, T.Error>, ghost passes: seq<Pass>)
    requires CollisionFree(H) && DataRootsDistinct(H) && Inv(H, plan.head) && WithinLimits(plan)
    ensures |passes| <= |plan.available| + 1
    ensures r.Ok? <==> Admissible(H, plan.head, Candidate(plan, []))
    ensures r.Err? ==> T.ApplyBlock(H, plan.head, Candidate(plan, [])) == Err(r.error)
    ensures r.Ok? ==>
              FixedPoint(H, plan, passes) && r.value == passes[|passes| - 1].included && Collected(H, plan, r.value)
  {
    var included: seq<ValidatorVote> := [];
    assert KeySet(H, included) == {};
    passes := [];
    while true
      invariant Collected(H, plan, included) && passes in PassSequences(H, plan)
      invariant if passes == [] then included == [] else Adds(H, plan, passes[|passes| - 1], included)
      invariant |passes| <= |included| <= |plan.available|
      decreases |plan.available| - |included|
    {
      var body := AggregateByData(H, included);
      assert |body| <= VALIDATOR_REGISTRY_LIMIT;
      var post := ApplyTo(H, plan.head, Candidate(plan, body));
      BodyDoesNotMatter(H, plan, body);
      if post.Err? {
        return Err(post.error), passes;
      }
      ghost var pass := Pass(included, post.value.justified);
      assert IsPass(H, plan, pass);
      OneMorePass(H, plan, passes, pass);
      passes := passes + [pass];
      if plan.available == [] || plan.known == {} {
        return Ok(included), passes;
      }
      var more := AddEligible(H, plan, post.value.justified, included);
      CollectedBounded(H, plan, more);
      if |more| == |included| {
        assert more == included;
        return Ok(included), passes;
      }
      included := more;
    }
  }

  // The returned block's own post-state

  /** Some round's candidate justified `c`. */
  ghost predicate Seen(passes: seq<Pass>, c: Checkpoint) {
    exists i :: 0 <= i < |passes| && passes[i].justified == c
  }

  /** An available vote about a known head, with a stored proof, that speaks from `c`. */
  ghost predicate SpeaksFrom(H: Hasher, plan: Plan, c: Checkpoint, a: ValidatorVote) {
    && a in plan.available && a.data.head.root in plan.known && a.data.source == c
    && SignatureKey(a.validator, H.data(a.data)) in plan.table
  }

  ghost predicate NobodySpeaksFrom(H: Hasher, plan: Plan, c: Checkpoint) {
    forall a :: !SpeaksFrom(H, plan, c, a)
  }

  /** Every vote that speaks from `c` is collected. */
  ghost predicate Complete(H: Hasher, plan: Plan, c: Checkpoint, votes: seq<ValidatorVote>) {
    forall a :: SpeaksFrom(H, plan, c, a) ==> a in votes
  }

  lemma SaturatedIffComplete(H: Hasher, plan: Plan, c: Checkpoint, votes: seq<ValidatorVote>)
    requires DataRootsDistinct(H)
    ensures Saturated(H, plan, c, votes) <==> Complete(H, plan, c, votes)
  {
    if Saturated(H, plan, c, votes) {
      forall a | SpeaksFrom(H, plan, c, a) ensures a in votes {
        assert Eligible(H, plan, c, a);
        var b :| b in votes && KeyOf(H, b) == KeyOf(H, a);
        assert b == a;
      }
    }
    if Complete(H, plan, c, votes) {
      forall a | a in plan.available && Eligible(H, plan, c, a) ensures KeyOf(H, a) in KeySet(H, votes) {
        assert SpeaksFrom(H, plan, c, a);
      }
    }
  }

  /** Every collected vote is one that spoke from a checkpoint some round justified. */
  lemma CollectedSpoke(H: Hasher, plan: Plan, passes: seq<Pass>, k: nat, a: ValidatorVote)
    requires passes in PassSequences(H, plan) && k < |passes| && a in passes[k].included
    requires Collected(H, plan, passes[k].included)
    ensures SpeaksFrom(H, plan, a.data.source, a) && Seen(passes, a.data.source)
  {
    SourcesWereSeen(H, plan, passes, k, a);
  }

  lemma {:induction false} CollectionsGrow(H: Hasher, plan: Plan, passes: seq<Pass>, i: nat, j: nat)
    requires passes in PassSequences(H, plan) && i <= j < |passes|
    ensures passes[i].included <= passes[j].included
    decreases j
  {
    if i < j {
      CollectionsGrow(H, plan, passes, i, j - 1);
      assert Linked(H, plan, passes, j - 1);
    }
  }

  lemma SaturatedStays(H: Hasher, plan: Plan, c: Checkpoint, votes: seq<ValidatorVote>, more: seq<ValidatorVote>)
    requires Saturated(H, plan, c, votes) && votes <= more
    ensures Saturated(H, plan, c, more)
  {
    forall k | k in KeySet(H, votes) ensures k in KeySet(H, more) {
      var a :| a in votes && KeyOf(H, a) == k;
      assert a in more;
    }
  }

  /** The collection has every vote that any round's checkpoint makes eligible. */
  lemma SeenIsSaturated(H: Hasher, plan: Plan, passes: seq<Pass>, i: nat)
    requires FixedPoint(H, plan, passes) && i < |passes|
    ensures Saturated(H, plan, passes[i].justified, passes[|passes| - 1].included)
  {
    if i < |passes| - 1 {
      assert Linked(H, plan, passes, i);
      CollectionsGrow(H, plan, passes, i + 1, |passes| - 1);
      SaturatedStays(H, plan, passes[i].justified, passes[i + 1].included, passes[|passes| - 1].included);
    }
  }

  /** Every collected vote speaks from a checkpoint that some round justified. */
  lemma {:induction false} SourcesWereSeen(H: Hasher, plan: Plan, passes: seq<Pass>, k: nat, a: ValidatorVote)
    requires passes in PassSequences(H, plan) && k < |passes| && a in passes[k].included
    ensures Seen(passes, a.data.source) && a.data.head.root in plan.known
  {
    if k > 0 {
      assert Linked(H, plan, passes, k - 1);
      var i :| 0 <= i < |passes[k].included| && passes[k].included[i] == a;
      if i < |passes[k - 1].included| {
        assert passes[k - 1].included[i] == a;
        SourcesWereSeen(H, plan, passes, k - 1, a);
      } else {
        assert Eligible(H, plan, passes[k - 1].justified, a);
      }
    }
  }

  /** The collected votes are a fixed point for a checkpoint `c`, such as the one that the returned block justifies,
      exactly when some round saw `c` or no available vote speaks from it. */
  lemma FixedPointForIff(H: Hasher, plan: Plan, passes: seq<Pass>, c: Checkpoint)
    requires DataRootsDistinct(H) && FixedPoint(H, plan, passes)
    ensures Complete(H, plan, c, passes[|passes| - 1].included) <==> Seen(passes, c) || NobodySpeaksFrom(H, plan, c)
  {
    var last := |passes| - 1;
    SaturatedIffComplete(H, plan, c, passes[last].included);
    if Seen(passes, c) {
      var i :| 0 <= i < |passes| && passes[i].justified == c;
      SeenIsSaturated(H, plan, passes, i);
    }
    if Complete(H, plan, c, passes[last].included) && !NobodySpeaksFrom(H, plan, c) {
      var a :| SpeaksFrom(H, plan, c, a);
      SourcesWereSeen(H, plan, passes, last, a);
    }
  }

  /** Every round's checkpoint has all its votes collected. */
  lemma RoundsComplete(H: Hasher, plan: Plan, passes: seq<Pass>)
    requires DataRootsDistinct(H) && FixedPoint(H, plan, passes)
    ensures forall i :: 0 <= i < |passes| ==> Complete(H, plan, passes[i].justified, passes[|passes| - 1].included)
  {
    forall i | 0 <= i < |passes| ensures Complete(H, plan, passes[i].justified, passes[|passes| - 1].included) {
      SeenIsSaturated(H, plan, passes, i);
      SaturatedIffComplete(H, plan, passes[i].justified, passes[|passes| - 1].included);
    }
  }

  /** Why the two can differ: the order of the same two attestations decides what a body justifies. `b` votes from
      the checkpoint that `a` justifies, so it counts after `a` and is ignored before it. */
  lemma BodyOrderDecides(d: State, a: AggregatedAttestation, b: AggregatedAttestation)
    requires ZERO !in d.tallyRoots && b.data.source == a.data.target
    requires Carries(T.Unpack(d), a) && Carries(T.ProcessAttestation(T.Unpack(d), T.SlotIndex(d), a), b)
    ensures T.ProcessAttestations(d, [a, b]).value.justified == b.data.target
    ensures T.ProcessAttestations(d, [b, a]).value.justified == a.data.target != b.data.target
  {
    var p, slotOf := T.Unpack(d), T.SlotIndex(d);
    assert T.ProcessPrefix(p, slotOf, [a, b], 1) == T.ProcessAttestation(p, slotOf, a);
    assert T.ProcessPrefix(p, slotOf, [b, a], 1) == T.ProcessAttestation(p, slotOf, b) == p;
  }

  /** A valid attestation whose target reaches the quorum with it. */
  ghost predicate Carries(p: T.Progress, att: AggregatedAttestation) {
    var n := |p.state.validators|;
    && T.IsValidVote(p.state, att.data.source, att.data.target) && |att.bits| <= n
    && 3 * CountVotes(T.RecordVotes(T.TallyOf(p, att.data.target.root), att.bits)) >= 2 * n
  }

  // It happens: one validator, blocks 1, 2 and 3 at slots 0, 1 and 2, and its votes from 1 to 2 and from 2 to 3.

  function HereState(): State {
    State(0, 3, Header(3, 0, 3, 0, 0), Checkpoint(1, 0), Checkpoint(1, 0), [1, 2, 3], [false, false], [Validator(0, 0)],
          [], [])
  }

  function HereVote(source: Checkpoint, target: Checkpoint): AggregatedAttestation {
    AggregatedAttestation([true], AttestationData(target.slot, target, target, source))
  }

  lemma OneVote()
    ensures CountVotes(T.RecordVotes([false], [true])) == 1
  {
    assert T.RecordVotes([false], [true]) == [true] && [true][..0] == [];
  }

  lemma FirstCarries()
    ensures var p := T.Unpack(HereState());
            p.tallies == map[] && Carries(p, HereVote(Checkpoint(1, 0), Checkpoint(2, 1)))
  {
    var p := T.Unpack(HereState());
    assert p.tallies == map[];
    assert T.TallyOf(p, 2) == [false];
    OneVote();
  }

  lemma SecondCarries()
    ensures var p := T.Unpack(HereState());
            var q := T.ProcessAttestation(p, T.SlotIndex(HereState()), HereVote(Checkpoint(1, 0), Checkpoint(2, 1)));
            Carries(q, HereVote(Checkpoint(2, 1), Checkpoint(3, 2)))
  {
    FirstCarries();
    var p := T.Unpack(HereState());
    var q := T.ProcessAttestation(p, T.SlotIndex(HereState()), HereVote(Checkpoint(1, 0), Checkpoint(2, 1)));
    assert q.state.finalized == Checkpoint(1, 0) && q.state.window == [true, false];
    assert q.tallies == map[];
    assert T.TallyOf(q, 3) == [false];
    OneVote();
  }

  lemma BodyOrderDecidesHere()
    ensures var a, b := HereVote(Checkpoint(1, 0), Checkpoint(2, 1)), HereVote(Checkpoint(2, 1), Checkpoint(3, 2));
            && T.ProcessAttestations(HereState(), [a, b]).value.justified == Checkpoint(3, 2)
            && T.ProcessAttestations(HereState(), [b, a]).value.justified == Checkpoint(2, 1)
  {
    FirstCarries();
    SecondCarries();
    var a, b := HereVote(Checkpoint(1, 0), Checkpoint(2, 1)), HereVote(Checkpoint(2, 1), Checkpoint(3, 2));
    BodyOrderDecides(HereState(), a, b);
  }

  /** In the order that counts both, the second vote also finalizes the block that the first one justified. */
  lemma FinalizedHere()
    ensures var a, b := HereVote(Checkpoint(1, 0), Checkpoint(2, 1)), HereVote(Checkpoint(2, 1), Checkpoint(3, 2));
            T.ProcessAttestations(HereState(), [a, b]).value.finalized == Checkpoint(2, 1)
  {
    var d, p := HereState(), T.Unpack(HereState());
    var a, b := HereVote(Checkpoint(1, 0), Checkpoint(2, 1)), HereVote(Checkpoint(2, 1), Checkpoint(3, 2));
    FirstCarries();
    SecondCarries();
    assert T.ProcessPrefix(p, T.SlotIndex(d), [a, b], 1) == T.ProcessAttestation(p, T.SlotIndex(d), a);
  }

  /** `build_block`: the block that comes out is accepted on the same head state, with the same post-state;
      its attestations align with the returned proofs, and cover all collected votes if those are provable. */
  method BuildBlock(H: Hasher, plan: Plan)
    returns (r: Result<Built, T.Error>, ghost included: seq<ValidatorVote>, ghost passes: seq<Pass>)
    requires CollisionFree(H) && DataRootsDistinct(H) && Inv(H, plan.head) && WithinLimits(plan)
    ensures |passes| <= |plan.available| + 1
    ensures r.Ok? <==> Admissible(H, plan.head, Candidate(plan, []))
    ensures r.Err? ==> T.ApplyBlock(H, plan.head, Candidate(plan, [])) == Err(r.error)
    ensures r.Ok? ==>
              && T.StateTransition(H, plan.head, r.value.block) == Ok(r.value.post)
              && r.value.block == Block(plan.slot, plan.proposer, plan.parentRoot, H.state(r.value.post),
                  r.value.block.body)
    ensures r.Ok? ==>
              var body, proofs := r.value.block.body, r.value.proofs;
              && |body| == |proofs| <= VALIDATOR_REGISTRY_LIMIT
              && (forall i :: 0 <= i < |body| ==> body[i].bits == proofs[i])
              && (forall agg :: agg in body ==> Justified(H, included, plan.table, agg))
    ensures r.Ok? ==>
              && FixedPoint(H, plan, passes)
              && included == passes[|passes| - 1].included && Collected(H, plan, included)
              && (AllProvable(H, included, plan.table) ==>
                    forall a :: a in included ==> Included(r.value.block.body, a))
    ensures r.Ok? ==>
              && (forall a :: a in included ==> SpeaksFrom(H, plan, a.data.source, a) && Seen(passes, a.data.source))
              && (forall i :: 0 <= i < |passes| ==> Complete(H, plan, passes[i].justified, included))
              && (Complete(H, plan, r.value.post.justified, included)
                  <==> Seen(passes, r.value.post.justified) || NobodySpeaksFrom(H, plan, r.value.post.justified))
  {
    var votes;
    votes, passes := CollectVotes(H, plan);
    included := [];
    if votes.Err? {
      return Err(votes.error), included, passes;
    }
    included := votes.value;
    CollectedBounded(H, plan, included);
    var body, proofs := SelectProofs(H, votes.value, plan.table);
    assert |body| <= VALIDATOR_REGISTRY_LIMIT;
    var block := Candidate(plan, body);
    var post := ApplyTo(H, plan.head, block);
    assert post.Ok? by { BodyDoesNotMatter(H, plan, body); }   // so the client's second `?` never fires
    var root := H.state(post.value);
    T.StateRootUnread(H, plan.head, block, root);
    FixedPointForIff(H, plan, passes, post.value.justified);
    RoundsComplete(H, plan, passes);
    forall a | a in included ensures SpeaksFrom(H, plan, a.data.source, a) && Seen(passes, a.data.source) {
      CollectedSpoke(H, plan, passes, |passes| - 1, a);
    }
    r := Ok(Built(block.(stateRoot := root), post.value, proofs));
  }
}
