/** Grouping votes by what they say, and covering each group with stored proofs. */
module ProofSelection {
  import opened Types
  import opened Payloads
  import opened Store

  type Proof = seq<bool>

  type ProofTable = map<SignatureKey, seq<Proof>>

  ghost predicate DataRootsDistinct(H: Hasher) {
    forall d: AttestationData, e: AttestationData :: H.data(d) == H.data(e) ==> d == e
  }

  predicate Bit(bits: seq<bool>, v: ValidatorIndex) { v < |bits| && bits[v] }

  function KeyOf(H: Hasher, a: ValidatorVote): SignatureKey { SignatureKey(a.validator, H.data(a.data)) }

  // Grouping

  datatype Group = Group(data: AttestationData, ids: seq<ValidatorIndex>)

  ghost predicate GroupSound(H: Hasher, atts: seq<ValidatorVote>, root: Root, g: Group) {
    && H.data(g.data) == root && g.ids != []
    && forall v :: v in g.ids <==> ValidatorVote(v, g.data) in atts
  }

  ghost predicate Grouped(H: Hasher, atts: seq<ValidatorVote>, groups: map<Root, Group>) {
    && (forall r :: r in groups ==> GroupSound(H, atts, r, groups[r]))
    && (forall a :: a in atts ==> H.data(a.data) in groups)
    && |groups| <= |atts|
  }

  function AddToGroup(H: Hasher, groups: map<Root, Group>, a: ValidatorVote): map<Root, Group> {
    var root := H.data(a.data);
    var g := if root in groups then groups[root] else Group(a.data, []);
    groups[root := g.(ids := g.ids + [a.validator])]
  }

  lemma GroupStep(H: Hasher, atts: seq<ValidatorVote>, groups: map<Root, Group>, a: ValidatorVote)
    requires DataRootsDistinct(H) && Grouped(H, atts, groups)
    ensures Grouped(H, atts + [a], AddToGroup(H, groups, a))
  {
    var root := H.data(a.data);
    var more := AddToGroup(H, groups, a);
    if root in groups {
      assert GroupSound(H, atts, root, groups[root]);
      assert groups[root].data == a.data;
      assert more.Keys == groups.Keys;
    } else {
      assert forall v :: ValidatorVote(v, a.data) !in atts;
      assert more.Keys == groups.Keys + {root};
    }
    forall r | r in more ensures GroupSound(H, atts + [a], r, more[r]) {
      if r != root {
        assert GroupSound(H, atts, r, groups[r]);
        assert more[r].data != a.data;
      }
    }
  }

  /** A set bit per index, and no longer than the highest index needs. */
  method BitsOf(ids: seq<ValidatorIndex>) returns (bits: seq<bool>)
    requires forall v :: v in ids ==> v < VALIDATOR_REGISTRY_LIMIT
    ensures forall v :: Bit(bits, v) <==> v in ids
    ensures bits != [] ==> bits[|bits| - 1]
    ensures |bits| <= VALIDATOR_REGISTRY_LIMIT
  {
    if ids == [] {
      return [];
    }
    var max := ids[0];
    for i := 1 to |ids|
      invariant max in ids && forall k :: 0 <= k < i ==> ids[k] <= max
    {
      if ids[i] > max { max := ids[i]; }
    }
    bits := seq(max + 1, _ => false);
    for i := 0 to |ids|
      invariant |bits| == max + 1
      invariant forall v :: Bit(bits, v) <==> v in ids[..i]
    {
      bits := bits[ids[i] := true];
      assert ids[..i + 1] == ids[..i] + [ids[i]];
    }
    assert ids[..|ids|] == ids;
    assert Bit(bits, max);
  }

  /** One aggregate per distinct vote, whose bits are exactly the validators that cast it. */
  ghost predicate Aggregates(atts: seq<ValidatorVote>, out: seq<AggregatedAttestation>) {
    && |out| <= |atts|
    && (forall i, j :: 0 <= i < j < |out| ==> out[i].data != out[j].data)
    && (forall i, v :: 0 <= i < |out| ==> (Bit(out[i].bits, v) <==> ValidatorVote(v, out[i].data) in atts))
    && (forall a :: a in atts ==> exists i :: 0 <= i < |out| && out[i].data == a.data)
  }

  ghost predicate FromGroup(H: Hasher, groups: map<Root, Group>, done: set<Root>, agg: AggregatedAttestation) {
    var root := H.data(agg.data);
    && root in done && root in groups && groups[root].data == agg.data
    && forall v :: Bit(agg.bits, v) <==> v in groups[root].ids
  }

  ghost predicate Emitted(H: Hasher, out: seq<AggregatedAttestation>, root: Root) {
    exists i :: 0 <= i < |out| && H.data(out[i].data) == root
  }

  /** The groups in `done` have come out, one aggregate each. */
  ghost predicate PartlyAggregated(groups: map<Root, Group>, done: set<Root>, H: Hasher,
                                   out: seq<AggregatedAttestation>) {
    && |out| == |done|
    && (forall i :: 0 <= i < |out| ==> FromGroup(H, groups, done, out[i]))
    && (forall i, j :: 0 <= i < j < |out| ==> out[i].data != out[j].data)
    && (forall r :: r in done ==> Emitted(H, out, r))
  }

  method GroupByRoot(H: Hasher, atts: seq<ValidatorVote>) returns (groups: map<Root, Group>)
    requires DataRootsDistinct(H)
    ensures Grouped(H, atts, groups)
  {
    groups := map[];
    for i := 0 to |atts|
      invariant Grouped(H, atts[..i], groups)
    {
      assert atts[..i + 1] == atts[..i] + [atts[i]];
      GroupStep(H, atts[..i], groups, atts[i]);
      groups := AddToGroup(H, groups, atts[i]);
    }
    assert atts[..|atts|] == atts;
  }

  method AggregateByData(H: Hasher, atts: seq<ValidatorVote>) returns (out: seq<AggregatedAttestation>)
    requires DataRootsDistinct(H) && forall a :: a in atts ==> a.validator < VALIDATOR_REGISTRY_LIMIT
    ensures Aggregates(atts, out)
  {
    var groups := GroupByRoot(H, atts);
    GroupsEmittable(H, atts, groups);
    out := EmitGroups(H, groups);
    FinishAggregation(H, atts, groups, out);
  }

  ghost predicate Emittable(H: Hasher, root: Root, g: Group) {
    H.data(g.data) == root && g.ids != [] && forall v :: v in g.ids ==> v < VALIDATOR_REGISTRY_LIMIT
  }

  lemma GroupsEmittable(H: Hasher, atts: seq<ValidatorVote>, groups: map<Root, Group>)
    requires Grouped(H, atts, groups) && forall a :: a in atts ==> a.validator < VALIDATOR_REGISTRY_LIMIT
    ensures forall r :: r in groups ==> Emittable(H, r, groups[r])
  {
  }

  /** The groups come out in the hash map's order, which is any order. */
  method EmitGroups(H: Hasher, groups: map<Root, Group>) returns (out: seq<AggregatedAttestation>)
    requires forall r :: r in groups ==> Emittable(H, r, groups[r])
    ensures PartlyAggregated(groups, groups.Keys, H, out)
  {
    out := [];
    var rest := groups.Keys;
    ghost var done: set<Root> := {};
    while rest != {}
      invariant rest !! done && rest + done == groups.Keys
      invariant PartlyAggregated(groups, done, H, out)
    {
      var root :| root in rest;
      assert Emittable(H, root, groups[root]);
      var bits := BitsOf(groups[root].ids);
      EmitStep(groups, done, H, out, root, bits);
      out := out + [AggregatedAttestation(bits, groups[root].data)];
      rest, done := rest - {root}, done + {root};
    }
    assert done == groups.Keys;
  }

  lemma EmitStep(groups: map<Root, Group>, done: set<Root>, H: Hasher, out: seq<AggregatedAttestation>, root: Root,
                 bits: seq<bool>)
    requires PartlyAggregated(groups, done, H, out) && root in groups && root !in done
    requires H.data(groups[root].data) == root && forall v :: Bit(bits, v) <==> v in groups[root].ids
    ensures PartlyAggregated(groups, done + {root}, H, out + [AggregatedAttestation(bits, groups[root].data)])
  {
    var more := out + [AggregatedAttestation(bits, groups[root].data)];
    forall i | 0 <= i < |more| ensures FromGroup(H, groups, done + {root}, more[i]) {
      if i < |out| {
        assert FromGroup(H, groups, done, out[i]);
      }
    }
    forall i | 0 <= i < |out| ensures more[i].data != groups[root].data {
      assert FromGroup(H, groups, done, out[i]);
    }
    forall r | r in done + {root} ensures Emitted(H, more, r) {
      if r == root {
        assert H.data(more[|out|].data) == r;
      } else {
        assert Emitted(H, out, r);
        var i :| 0 <= i < |out| && H.data(out[i].data) == r;
        assert H.data(more[i].data) == r;
      }
    }
  }

  lemma FinishAggregation(H: Hasher, atts: seq<ValidatorVote>, groups: map<Root, Group>,
                          out: seq<AggregatedAttestation>)
    requires DataRootsDistinct(H) && Grouped(H, atts, groups) && PartlyAggregated(groups, groups.Keys, H, out)
    ensures Aggregates(atts, out)
  {
  }

  // Covering one group

  function Members(bits: seq<bool>): set<ValidatorIndex> {
    set v | 0 <= v < |bits| && bits[v]
  }

  function Covered(p: Proof, remaining: set<ValidatorIndex>): set<ValidatorIndex> {
    set v | v in remaining && Bit(p, v)
  }

  /** A candidate that covers as many remaining validators as any other; the last such one. */
  method BestProof(candidates: seq<Proof>, remaining: set<ValidatorIndex>) returns (k: nat)
    requires candidates != []
    ensures k < |candidates|
    ensures forall i :: 0 <= i < |candidates| ==>
              |Covered(candidates[i], remaining)| <= |Covered(candidates[k], remaining)|
    ensures forall i :: k < i < |candidates| ==>
              |Covered(candidates[i], remaining)| < |Covered(candidates[k], remaining)|
  {
    k := 0;
    for j := 1 to |candidates|
      invariant k < j
      invariant forall i :: 0 <= i < j ==> |Covered(candidates[i], remaining)| <= |Covered(candidates[k], remaining)|
      invariant forall i :: k < i < j ==> |Covered(candidates[i], remaining)| < |Covered(candidates[k], remaining)|
    {
      if |Covered(candidates[j], remaining)| >= |Covered(candidates[k], remaining)| {
        k := j;
      }
    }
  }

  /** Each proof stored for validator `v` and this data names `v`, and there is one. */
  ghost predicate Provable(table: ProofTable, dataRoot: Root, v: ValidatorIndex) {
    var key := SignatureKey(v, dataRoot);
    key in table && table[key] != [] && forall p :: p in table[key] ==> Bit(p, v)
  }

  ghost predicate StoredFor(table: ProofTable, dataRoot: Root, who: set<ValidatorIndex>, p: Proof) {
    exists v :: v in who && SignatureKey(v, dataRoot) in table && p in table[SignatureKey(v, dataRoot)]
  }

  ghost predicate CoveredBy(picks: seq<Proof>, v: ValidatorIndex) {
    exists i :: 0 <= i < |picks| && Bit(picks[i], v)
  }

  /** The members that no proof in `picks` covers. */
  ghost function Uncovered(members: set<ValidatorIndex>, picks: seq<Proof>): set<ValidatorIndex> {
    set v | v in members && !CoveredBy(picks, v)
  }

  /** Pick `i` was stored for a member still uncovered, and none stored for it covers more of what was. */
  ghost predicate Greedy(table: ProofTable, dataRoot: Root, members: set<ValidatorIndex>, picks: seq<Proof>, i: nat)
    requires i < |picks|
  {
    var left := Uncovered(members, picks[..i]);
    exists v :: v in left && SignatureKey(v, dataRoot) in table && picks[i] in table[SignatureKey(v, dataRoot)]
                && forall p :: p in table[SignatureKey(v, dataRoot)] ==> |Covered(p, left)| <= |Covered(picks[i], left)|
  }

  lemma UncoveredAfter(members: set<ValidatorIndex>, picks: seq<Proof>, p: Proof)
    ensures Uncovered(members, picks + [p]) == Uncovered(members, picks) - Covered(p, Uncovered(members, picks))
  {
    var left, more := Uncovered(members, picks), picks + [p];
    forall v | v in members ensures CoveredBy(more, v) <==> CoveredBy(picks, v) || Bit(p, v) {
      if CoveredBy(picks, v) {
        var i :| 0 <= i < |picks| && Bit(picks[i], v);
        assert Bit(more[i], v);
      }
      if Bit(p, v) {
        assert Bit(more[|picks|], v);
      }
    }
  }

  lemma GreedyGrows(table: ProofTable, dataRoot: Root, members: set<ValidatorIndex>, picks: seq<Proof>,
                    v: ValidatorIndex, k: nat)
    requires forall i :: 0 <= i < |picks| ==> Greedy(table, dataRoot, members, picks, i)
    requires v in Uncovered(members, picks) && SignatureKey(v, dataRoot) in table
    requires k < |table[SignatureKey(v, dataRoot)]|
    requires var stored, left := table[SignatureKey(v, dataRoot)], Uncovered(members, picks);
             forall i :: 0 <= i < |stored| ==> |Covered(stored[i], left)| <= |Covered(stored[k], left)|
    ensures var more := picks + [table[SignatureKey(v, dataRoot)][k]];
            forall i :: 0 <= i < |more| ==> Greedy(table, dataRoot, members, more, i)
  {
    var more := picks + [table[SignatureKey(v, dataRoot)][k]];
    forall i | 0 <= i < |more| ensures Greedy(table, dataRoot, members, more, i) {
      if i < |picks| {
        assert Greedy(table, dataRoot, members, picks, i);
        assert more[..i] == picks[..i];
      } else {
        assert more[..i] == picks;
      }
    }
  }

  /** The greedy cover. `left` is what no stored proof covers: nothing, if every member is provable. */
  method CoverGroup(table: ProofTable, dataRoot: Root, members: set<ValidatorIndex>)
    returns (picks: seq<Proof>, left: set<ValidatorIndex>)
    ensures left == Uncovered(members, picks) && |picks| + |left| <= |members|
    ensures forall i :: 0 <= i < |picks| ==> Greedy(table, dataRoot, members, picks, i)
    ensures forall p :: p in picks ==> StoredFor(table, dataRoot, members, p)
    ensures (forall v :: v in members ==> Provable(table, dataRoot, v)) ==> left == {}
  {
    picks, left := [], members;
    while left != {}
      invariant left == Uncovered(members, picks) && |picks| + |left| <= |members|
      invariant forall i :: 0 <= i < |picks| ==> Greedy(table, dataRoot, members, picks, i)
      invariant forall p :: p in picks ==> StoredFor(table, dataRoot, members, p)
      decreases |left|
    {
      var target :| target in left;
      var key := SignatureKey(target, dataRoot);
      if key !in table || table[key] == [] {
        assert !Provable(table, dataRoot, target);
        break;
      }
      var k := BestProof(table[key], left);
      var p := table[key][k];
      var covered := Covered(p, left);
      if covered == {} {
        assert target !in covered && !Bit(p, target);
        assert !Provable(table, dataRoot, target);
        break;
      }
      assert StoredFor(table, dataRoot, members, p);
      UncoveredAfter(members, picks, p);
      GreedyGrows(table, dataRoot, members, picks, target, k);
      assert |left| == |left - covered| + |covered|;
      picks := picks + [p];
      left := left - covered;
    }
  }

  // All groups

  function VotesOf(data: AttestationData, who: set<ValidatorIndex>): set<ValidatorVote> {
    set v | v in who :: ValidatorVote(v, data)
  }

  lemma {:induction false} VotesOfSize(data: AttestationData, who: set<ValidatorIndex>)
    ensures |VotesOf(data, who)| == |who|
  {
    if who == {} {
      assert VotesOf(data, who) == {};
    } else {
      var v :| v in who;
      VotesOfSize(data, who - {v});
      assert VotesOf(data, who) == VotesOf(data, who - {v}) + {ValidatorVote(v, data)};
    }
  }

  lemma {:induction false} DistinctVotes(atts: seq<ValidatorVote>, some: set<ValidatorVote>)
    requires forall a :: a in some ==> a in atts
    ensures |some| <= |atts|
  {
    if atts == [] {
      assert some == {};
    } else {
      var k := |atts| - 1;
      forall a | a in some - {atts[k]} ensures a in atts[..k] {
        var i :| 0 <= i < |atts| && atts[i] == a;
      }
      DistinctVotes(atts[..k], some - {atts[k]});
    }
  }

  ghost predicate Included(out: Body, a: ValidatorVote) {
    exists i :: 0 <= i < |out| && out[i].data == a.data && Bit(out[i].bits, a.validator)
  }

  ghost predicate Justified(H: Hasher, atts: seq<ValidatorVote>, table: ProofTable, agg: AggregatedAttestation) {
    exists a :: a in atts && agg.data == a.data && KeyOf(H, a) in table && agg.bits in table[KeyOf(H, a)]
  }

  ghost predicate AllProvable(H: Hasher, atts: seq<ValidatorVote>, table: ProofTable) {
    forall a :: a in atts ==> Provable(table, H.data(a.data), a.validator)
  }

  /** What the selection has done once the votes in `done` were visited. */
  ghost predicate Selected(H: Hasher, atts: seq<ValidatorVote>, table: ProofTable, done: set<ValidatorVote>,
                           out: Body, proofs: seq<Proof>) {
    && |out| == |proofs| <= |done|
    && (forall i :: 0 <= i < |out| ==> out[i].bits == proofs[i])
    && (forall agg :: agg in out ==> Justified(H, atts, table, agg))
    && (AllProvable(H, atts, table) ==> forall a :: a in done ==> Included(out, a))
  }

  function Pair(data: AttestationData, picks: seq<Proof>): Body {
    seq(|picks|, i requires 0 <= i < |picks| => AggregatedAttestation(picks[i], data))
  }

  /** `select_aggregated_proofs`: attestations and proofs align one to one with equal bits, each proof is one
      stored for an included vote, there are at most as many as included votes, and if every included vote
      is provable then every one of them is covered. */
  method SelectProofs(H: Hasher, atts: seq<ValidatorVote>, table: ProofTable) returns (out: Body, proofs: seq<Proof>)
    requires DataRootsDistinct(H) && forall a :: a in atts ==> a.validator < VALIDATOR_REGISTRY_LIMIT
    ensures |out| == |proofs| <= |atts|
    ensures forall i :: 0 <= i < |out| ==> out[i].bits == proofs[i]
    ensures forall agg :: agg in out ==> Justified(H, atts, table, agg)
    ensures AllProvable(H, atts, table) ==> forall a :: a in atts ==> Included(out, a)
  {
    var groups := AggregateByData(H, atts);
    out, proofs := [], [];
    var k := 0;
    while k < |groups|
      invariant k <= |groups|
      invariant Selected(H, atts, table, Visited(atts, groups, k), out, proofs)
    {
      out, proofs := SelectGroup(H, atts, table, groups, k, out, proofs);
      k := k + 1;
    }
    VisitedAll(atts, groups);
  }

  /** The proofs for one group, appended to what was selected before. */
  method SelectGroup(H: Hasher, ghost atts: seq<ValidatorVote>, table: ProofTable, groups: Body, k: nat, out: Body,
                     proofs: seq<Proof>)
    returns (out': Body, proofs': seq<Proof>)
    requires Aggregates(atts, groups) && k < |groups|
    requires Selected(H, atts, table, Visited(atts, groups, k), out, proofs)
    ensures Selected(H, atts, table, Visited(atts, groups, k + 1), out', proofs')
  {
    var data := groups[k].data;
    var members := Members(groups[k].bits);
    var picks, left := CoverGroup(table, H.data(data), members);
    VisitStep(atts, groups, k);
    SelectStep(H, atts, table, Visited(atts, groups, k), out, proofs, data, members, picks, left);
    out', proofs' := out + Pair(data, picks), proofs + picks;
  }

  ghost predicate InGroup(groups: Body, k: nat, a: ValidatorVote)
    requires k <= |groups|
  {
    exists i :: 0 <= i < k && groups[i].data == a.data
  }

  /** The votes that belong to the first `k` groups. */
  ghost function Visited(atts: seq<ValidatorVote>, groups: Body, k: nat): set<ValidatorVote>
    requires k <= |groups|
  {
    set a | a in atts && InGroup(groups, k, a)
  }

  lemma VisitStep(atts: seq<ValidatorVote>, groups: Body, k: nat)
    requires Aggregates(atts, groups) && k < |groups|
    ensures Visited(atts, groups, k + 1) == Visited(atts, groups, k) + VotesOf(groups[k].data, Members(groups[k].bits))
    ensures forall a :: a in Visited(atts, groups, k) ==> a.data != groups[k].data
    ensures forall v :: v in Members(groups[k].bits) <==> ValidatorVote(v, groups[k].data) in atts
  {
  }

  lemma VisitedAll(atts: seq<ValidatorVote>, groups: Body)
    requires Aggregates(atts, groups)
    ensures |Visited(atts, groups, |groups|)| <= |atts|
    ensures forall a :: a in atts ==> a in Visited(atts, groups, |groups|)
  {
    DistinctVotes(atts, Visited(atts, groups, |groups|));
  }

  lemma SelectStep(H: Hasher, atts: seq<ValidatorVote>, table: ProofTable, done: set<ValidatorVote>,
                   out: Body, proofs: seq<Proof>, data: AttestationData, members: set<ValidatorIndex>,
                   picks: seq<Proof>, left: set<ValidatorIndex>)
    requires Selected(H, atts, table, done, out, proofs)
    requires forall v :: v in members <==> ValidatorVote(v, data) in atts
    requires forall a :: a in done ==> a.data != data
    requires |picks| + |left| <= |members|
    requires forall v :: v in members && v !in left ==> CoveredBy(picks, v)
    requires forall p :: p in picks ==> StoredFor(table, H.data(data), members, p)
    requires (forall v :: v in members ==> Provable(table, H.data(data), v)) ==> left == {}
    ensures Selected(H, atts, table, done + VotesOf(data, members), out + Pair(data, picks), proofs + picks)
  {
    var more := out + Pair(data, picks);
    VotesOfSize(data, members);
    assert done !! VotesOf(data, members);
    forall agg | agg in more ensures Justified(H, atts, table, agg) {
      if agg !in out {
        assert agg in Pair(data, picks);
        PickJustified(H, atts, table, data, members, picks, agg);
      }
    }
    if AllProvable(H, atts, table) {
      forall v | v in members ensures Provable(table, H.data(data), v) {
        assert ValidatorVote(v, data) in atts;
      }
      forall a | a in done + VotesOf(data, members) ensures Included(more, a) {
        IncludedStays(H, out, data, picks, a, members);
      }
    }
  }

  lemma PickJustified(H: Hasher, atts: seq<ValidatorVote>, table: ProofTable, data: AttestationData,
                      members: set<ValidatorIndex>, picks: seq<Proof>, agg: AggregatedAttestation)
    requires agg in Pair(data, picks)
    requires forall v :: v in members ==> ValidatorVote(v, data) in atts
    requires forall p :: p in picks ==> StoredFor(table, H.data(data), members, p)
    ensures Justified(H, atts, table, agg)
  {
    var i :| 0 <= i < |picks| && Pair(data, picks)[i] == agg;
    assert picks[i] in picks;
    var v :| v in members && SignatureKey(v, H.data(data)) in table && picks[i] in table[SignatureKey(v, H.data(data))];
    assert KeyOf(H, ValidatorVote(v, data)) == SignatureKey(v, H.data(data));
  }

  lemma IncludedStays(H: Hasher, out: Body, data: AttestationData, picks: seq<Proof>, a: ValidatorVote,
                      members: set<ValidatorIndex>)
    requires Included(out, a) || (a in VotesOf(data, members) && CoveredBy(picks, a.validator))
    ensures Included(out + Pair(data, picks), a)
  {
    var more := out + Pair(data, picks);
    if Included(out, a) {
      var i :| 0 <= i < |out| && out[i].data == a.data && Bit(out[i].bits, a.validator);
      assert more[i] == out[i];
    } else {
      var i :| 0 <= i < |picks| && Bit(picks[i], a.validator);
      assert more[|out| + i] == AggregatedAttestation(picks[i], data);
    }
  }
}
