/** Different stores of one chain: whatever they received and in whatever order, they agree on the state of
    every block they share, and so on which blocks they accept. */
module Replicas {
  import opened Types
  import opened ForkChoice
  import opened Payloads
  import opened Store
  import opened StoreSafety
  import opened Bookkeeping
  import T = Transition
  import C = Cascade
  import D = Delivery

  ghost predicate BodyRootsDistinct(H: Hasher) {
    forall b: Body, c: Body :: H.body(b) == H.body(c) ==> b == c
  }

  lemma SameRootSameBlock(H: Hasher, b: Block, c: Block)
    requires CollisionFree(H) && BodyRootsDistinct(H) && BlockRoot(H, b) == BlockRoot(H, c)
    ensures b == c
  {
    assert HeaderOf(H, b) == HeaderOf(H, c);
  }

  // Where a stored state comes from

  /** The state under `r` is what the block `b` makes of its parent's state. */
  ghost predicate ComputedBy(H: Hasher, states: map<Root, State>, r: Root, b: Block) {
    && r in states && BlockRoot(H, b) == r && b.parentRoot in states
    && T.StateTransition(H, states[b.parentRoot], b).Ok?
    && states[r] == Seal(T.StateTransition(H, states[b.parentRoot], b).value, b)
  }

  ghost predicate Computed(H: Hasher, a: Root, states: map<Root, State>) {
    forall r :: r in states && r != a ==> exists b :: ComputedBy(H, states, r, b)
  }

  lemma ComputedStays(H: Hasher, states: map<Root, State>, more: map<Root, State>, r: Root, b: Block)
    requires ComputedBy(H, states, r, b) && forall x :: x in states ==> x in more && more[x] == states[x]
    ensures ComputedBy(H, more, r, b)
  {
  }

  lemma ComputedGrows(H: Hasher, a: Root, states: map<Root, State>, more: map<Root, State>, root: Root, b: Block)
    requires Computed(H, a, states) && ComputedBy(H, more, root, b)
    requires more.Keys == states.Keys + {root} && forall x :: x in states ==> more[x] == states[x]
    ensures Computed(H, a, more)
  {
    forall r | r in more && r != a ensures exists c :: ComputedBy(H, more, r, c) {
      if r != root {
        var c :| ComputedBy(H, states, r, c);
        ComputedStays(H, states, more, r, c);
      }
    }
  }

  /** Every step keeps the stored states, and a new one is computed from its parent's. */
  ghost predicate Grows(H: Hasher, a: Root, states: map<Root, State>, more: map<Root, State>) {
    && (forall r :: r in states ==> r in more && more[r] == states[r])
    && (Computed(H, a, states) ==> Computed(H, a, more))
  }

  lemma BlockGrows(H: Hasher, a: Root, s: Store, sb: SignedBlock, verify: bool, crypto: Crypto)
    ensures Grows(H, a, s.states, StatesAfter(H, s, sb, verify, crypto))
  {
    var r := BlockOutcome(H, s, sb, verify, crypto);
    var more := StatesAfter(H, s, sb, verify, crypto);
    if r.Ok? && r.value.Some? && Computed(H, a, s.states) {
      assert ComputedBy(H, more, BlockRoot(H, sb.block), sb.block);
      ComputedGrows(H, a, s.states, more, BlockRoot(H, sb.block), sb.block);
    }
  }

  lemma StepGrows(H: Hasher, a: Root, s: Store, s': Store)
    requires CollisionFree(H) && s in Sane(H, a) && Step(H, s, s')
    ensures Grows(H, a, s.states, s'.states)
  {
    var input :| Handles(H, s, input, s');
    InputStates(H, a, s, input, s');
    if input.ReceiveBlock? {
      BlockGrows(H, a, s, input.sb, input.verify, input.crypto);
    }
  }

  /** The stores of the chain from `anchor`: within the invariant, and every state computed from the anchor's. */
  ghost function Faithful(H: Hasher, anchor: State): iset<Store> {
    var a := InitStore(H, anchor).head;
    iset s: Store | s in Sane(H, a) && a in s.states && s.states[a] == SealAnchor(H, anchor) && Computed(H, a, s.states)
  }

  ghost predicate Reachable(H: Hasher, anchor: State, s: Store) {
    exists trace :: IsRun(H, trace) && trace[0] == InitStore(H, anchor) && trace[|trace| - 1] == s
  }

  lemma {:induction false} RunFaithful(H: Hasher, anchor: State, trace: seq<Store>, j: nat)
    requires CollisionFree(H) && Inv(H, anchor) && j < |trace|
    requires IsRun(H, trace) && trace[0] == InitStore(H, anchor)
    ensures trace[j] in Faithful(H, anchor)
  {
    var a := InitStore(H, anchor).head;
    if j == 0 {
      AnchorSound(H, anchor);
    } else {
      RunFaithful(H, anchor, trace, j - 1);
      StepSound(H, a, trace[j - 1], trace[j]);
      StepGrows(H, a, trace[j - 1], trace[j]);
    }
  }

  lemma ReachableFaithful(H: Hasher, anchor: State, s: Store)
    requires CollisionFree(H) && Inv(H, anchor) && Reachable(H, anchor, s)
    ensures s in Faithful(H, anchor)
  {
    var trace :| IsRun(H, trace) && trace[0] == InitStore(H, anchor) && trace[|trace| - 1] == s;
    RunFaithful(H, anchor, trace, |trace| - 1);
  }

  // Agreement

  lemma ParentIsOlder(H: Hasher, a: Root, s: Store, r: Root, b: Block)
    requires CollisionFree(H) && s in Sane(H, a) && r in s.states && r != a && BlockRoot(H, b) == r
    ensures b.parentRoot in s.states && s.states[b.parentRoot].header.slot < s.states[r].header.slot
  {
    assert NodeSound(H, a, s.states, r);
    assert s.states[r].header == HeaderOf(H, b);
  }

  lemma {:induction false} FaithfulAgree(H: Hasher, anchor: State, s: Store, s': Store, r: Root)
    requires CollisionFree(H) && BodyRootsDistinct(H) && s in Faithful(H, anchor) && s' in Faithful(H, anchor)
    requires r in s.states && r in s'.states
    ensures s.states[r] == s'.states[r]
    decreases s.states[r].header.slot
  {
    var a := InitStore(H, anchor).head;
    if r != a {
      var b :| ComputedBy(H, s.states, r, b);
      var c :| ComputedBy(H, s'.states, r, c);
      SameRootSameBlock(H, b, c);
      ParentIsOlder(H, a, s, r, b);
      FaithfulAgree(H, anchor, s, s', b.parentRoot);
    }
  }

  /** Any two stores reached from one anchor hold the same state under a root they share. */
  lemma ReplicasAgree(H: Hasher, anchor: State, s: Store, s': Store, r: Root)
    requires CollisionFree(H) && BodyRootsDistinct(H) && Inv(H, anchor)
    requires Reachable(H, anchor, s) && Reachable(H, anchor, s') && r in s.states && r in s'.states
    ensures s.states[r] == s'.states[r]
  {
    ReachableFaithful(H, anchor, s);
    ReachableFaithful(H, anchor, s');
    FaithfulAgree(H, anchor, s, s', r);
  }

  /** A block that is new to both has the same outcome in both: same post-state, or same error. */
  lemma OutcomesAgree(H: Hasher, anchor: State, s: Store, s': Store, sb: SignedBlock, verify: bool, crypto: Crypto)
    requires CollisionFree(H) && BodyRootsDistinct(H) && Inv(H, anchor)
    requires Reachable(H, anchor, s) && Reachable(H, anchor, s')
    requires Importable(H, s, sb.block) && Importable(H, s', sb.block)
    ensures BlockOutcome(H, s, sb, verify, crypto) == BlockOutcome(H, s', sb, verify, crypto)
  {
    ReplicasAgree(H, anchor, s, s', sb.block.parentRoot);
  }

  /** The parent's state is there and the block's own is not. */
  predicate Importable(H: Hasher, s: Store, b: Block) {
    b.parentRoot in s.states && BlockRoot(H, b) !in s.states
  }

  // Acceptance as a function of the block, as the cascade takes it

  /** What a received block holds once its bytes are read, and what the signature library says about it. */
  datatype Opened = Opened(signed: SignedBlock, crypto: Crypto)

  type Opening = C.SignedBlock -> Opened

  ghost predicate Opens(open: Opening) {
    forall sb :: open(sb).signed.block == sb.block
  }

  ghost predicate Accepted(H: Hasher, anchor: State, open: Opening, sb: C.SignedBlock) {
    exists s :: Reachable(H, anchor, s) && Importable(H, s, sb.block)
                && BlockOutcome(H, s, open(sb).signed, true, open(sb).crypto).Ok?
  }

  /** The surroundings of a server whose blocks are judged by the store. */
  ghost function StoreEnv(H: Hasher, anchor: State, open: Opening, depth: Root -> nat): C.Env {
    C.Env(H, sb => Accepted(H, anchor, open, sb), {InitStore(H, anchor).head}, depth)
  }

  /** In every store that can import the block, the store's verdict is the one the cascade works with. */
  lemma StoreDecidesAcceptance(H: Hasher, anchor: State, open: Opening, depth: Root -> nat, s: Store, sb: C.SignedBlock)
    requires CollisionFree(H) && BodyRootsDistinct(H) && Inv(H, anchor) && Opens(open)
    requires Reachable(H, anchor, s) && Importable(H, s, sb.block)
    ensures StoreEnv(H, anchor, open, depth).accepts(sb)
       <==> BlockOutcome(H, s, open(sb).signed, true, open(sb).crypto).Ok?
  {
    if Accepted(H, anchor, open, sb) {
      var s' :| Reachable(H, anchor, s') && Importable(H, s', sb.block)
                && BlockOutcome(H, s', open(sb).signed, true, open(sb).crypto).Ok?;
      OutcomesAgree(H, anchor, s, s', open(sb).signed, true, open(sb).crypto);
    }
  }

  // The cascade over real stores

  ghost function ReachableStores(H: Hasher, anchor: State): iset<Store> {
    iset s: Store | Reachable(H, anchor, s)
  }

  lemma ReachesOn(H: Hasher, anchor: State, s: Store, s': Store)
    requires s in ReachableStores(H, anchor) && Step(H, s, s')
    ensures s' in ReachableStores(H, anchor)
  {
    var trace :| IsRun(H, trace) && trace[0] == InitStore(H, anchor) && trace[|trace| - 1] == s;
    RunGrows(H, trace, s');
    assert (trace + [s'])[|trace|] == s' && (trace + [s'])[0] == trace[0];
  }

  lemma RunGrows(H: Hasher, trace: seq<Store>, s: Store)
    requires IsRun(H, trace) && Step(H, trace[|trace| - 1], s)
    ensures IsRun(H, trace + [s])
  {
  }

  /** An accepted block can be imported. */
  lemma ImportHappens(H: Hasher, a: Root, s: Store, sb: SignedBlock, crypto: Crypto) returns (s': Store)
    requires CollisionFree(H) && s in Sane(H, a)
    requires BlockOutcome(H, s, sb, true, crypto).Ok? && BlockOutcome(H, s, sb, true, crypto).value.Some?
    ensures BlockStep(H, s, sb, true, crypto, s')
  {
    var t := ImportBlock(H, s, sb, BlockOutcome(H, s, sb, true, crypto).value.value);
    ImportKeepsSane(H, a, s, sb, true, crypto, map[]);
    var votes := Latest(Keys(t.knownPayloads), t.data);
    s' := RecordProposer(H, UpdateHead(t, votes), sb, true);
  }

  lemma BlockReaches(H: Hasher, anchor: State, s: Store, sb: SignedBlock, crypto: Crypto, s': Store)
    requires s in ReachableStores(H, anchor) && BlockStep(H, s, sb, true, crypto, s')
    ensures s' in ReachableStores(H, anchor)
  {
    assert Handles(H, s, ReceiveBlock(sb, true, crypto), s');
    ReachesOn(H, anchor, s, s');
  }

  lemma ImportAdds(H: Hasher, s: Store, sb: SignedBlock, crypto: Crypto, s': Store)
    requires Importable(H, s, sb.block) && BlockOutcome(H, s, sb, true, crypto).Ok?
    requires BlockStep(H, s, sb, true, crypto, s')
    ensures s'.states.Keys == s.states.Keys + {BlockRoot(H, sb.block)}
  {
    BlockStepStates(H, s, sb, true, crypto, s');
  }

  lemma OneMoreImport(H: Hasher, anchor: State, s: Store, sb: SignedBlock, crypto: Crypto) returns (s': Store)
    requires CollisionFree(H) && Inv(H, anchor) && s in ReachableStores(H, anchor) && Importable(H, s, sb.block)
    requires BlockOutcome(H, s, sb, true, crypto).Ok?
    ensures s' in ReachableStores(H, anchor) && s'.states.Keys == s.states.Keys + {BlockRoot(H, sb.block)}
  {
    ReachableFaithful(H, anchor, s);
    s' := ImportHappens(H, InitStore(H, anchor).head, s, sb, crypto);
    BlockReaches(H, anchor, s, sb, crypto, s');
    ImportAdds(H, s, sb, crypto, s');
  }

  /** Roots whose accepted blocks lead down to the anchors within the set. */
  ghost predicate Closed(env: C.Env, signed: map<Root, C.SignedBlock>, roots: set<Root>) {
    && env.anchors <= roots
    && forall r :: r in roots && r !in env.anchors ==>
         && r in signed && C.RootOf(env, signed[r]) == r && env.accepts(signed[r])
         && signed[r].block.parentRoot in roots && env.depth(signed[r].block.parentRoot) < env.depth(r)
  }

  lemma {:induction false} HasDeepest(roots: set<Root>, depth: Root -> nat) returns (r: Root)
    requires roots != {}
    ensures r in roots && forall x :: x in roots ==> depth(x) <= depth(r)
  {
    r :| r in roots;
    var rest := roots - {r};
    assert forall x :: x in roots ==> x == r || x in rest;
    if rest != {} {
      var d := HasDeepest(rest, depth);
      if depth(d) > depth(r) { r := d; }
    }
  }

  lemma ClosedWithout(env: C.Env, signed: map<Root, C.SignedBlock>, roots: set<Root>, r: Root)
    requires Closed(env, signed, roots) && r in roots && r !in env.anchors
    requires forall x :: x in roots && x !in env.anchors ==> env.depth(x) <= env.depth(r)
    ensures Closed(env, signed, roots - {r}) && signed[r].block.parentRoot in roots - {r}
  {
  }

  /** The circumstances under which acceptance is a function of the block. */
  ghost function Settings(): iset<(Hasher, State, Opening)> {
    iset x: (Hasher, State, Opening) | CollisionFree(x.0) && BodyRootsDistinct(x.0) && Inv(x.0, x.1) && Opens(x.2)
  }

  lemma ImportTop(H: Hasher, anchor: State, open: Opening, depth: Root -> nat, before: Store, sb: C.SignedBlock)
    returns (s: Store)
    requires (H, anchor, open) in Settings()
    requires before in ReachableStores(H, anchor) && Importable(H, before, sb.block)
    requires StoreEnv(H, anchor, open, depth).accepts(sb)
    ensures s in ReachableStores(H, anchor) && s.states.Keys == before.states.Keys + {BlockRoot(H, sb.block)}
  {
    StoreDecidesAcceptance(H, anchor, open, depth, before, sb);
    s := OneMoreImport(H, anchor, before, open(sb).signed, open(sb).crypto);
  }

  lemma AnchorReachable(H: Hasher, anchor: State)
    ensures InitStore(H, anchor) in ReachableStores(H, anchor)
    ensures InitStore(H, anchor).states.Keys == {InitStore(H, anchor).head}
  {
    assert IsRun(H, [InitStore(H, anchor)]);
  }

  lemma AddTop(H: Hasher, anchor: State, open: Opening, depth: Root -> nat, env: C.Env, sb: C.SignedBlock,
               roots: set<Root>,
               before: Store)
    returns (s: Store)
    requires (H, anchor, open) in Settings() && env == StoreEnv(H, anchor, open, depth) && env.accepts(sb)
    requires before in ReachableStores(H, anchor) && before.states.Keys == roots - {C.RootOf(env, sb)}
    requires C.RootOf(env, sb) in roots && sb.block.parentRoot in roots - {C.RootOf(env, sb)}
    ensures s in ReachableStores(H, anchor) && s.states.Keys == roots
  {
    s := ImportTop(H, anchor, open, depth, before, sb);
    assert roots == roots - {C.RootOf(env, sb)} + {C.RootOf(env, sb)};
  }

  /** A closed set of roots is what some reachable store holds: import the blocks from the anchor down. */
  lemma {:induction false} StoreFor(H: Hasher, anchor: State, open: Opening, depth: Root -> nat, env: C.Env,
                                    signed: map<Root, C.SignedBlock>, roots: set<Root>)
    returns (s: Store)
    requires (H, anchor, open) in Settings()
    requires env == StoreEnv(H, anchor, open, depth) && Closed(env, signed, roots)
    ensures s in ReachableStores(H, anchor) && s.states.Keys == roots
    decreases |roots|
  {
    if roots == env.anchors {
      s := InitStore(H, anchor);
      AnchorReachable(H, anchor);
    } else {
      var r := HasDeepest(roots - env.anchors, env.depth);
      ClosedWithout(env, signed, roots, r);
      s := StoreFor(H, anchor, open, depth, env, signed, roots - {r});
      s := AddTop(H, anchor, open, depth, env, signed[r], roots, s);
    }
  }

  /** Whatever a server received, the states it ends with are those of a store that can be reached. */
  lemma CascadeIsAStore(H: Hasher, anchor: State, open: Opening, depth: Root -> nat, headers: map<Root, Header>,
                        blocks: seq<C.SignedBlock>, states: set<Root>)
    requires CollisionFree(H) && BodyRootsDistinct(H) && Inv(H, anchor) && Opens(open)
    requires var env := StoreEnv(H, anchor, open, depth);
             D.Startable(env, headers) && D.Leaves(env, headers, blocks, states)
    ensures exists s :: Reachable(H, anchor, s) && s.states.Keys == states
  {
    var env := StoreEnv(H, anchor, open, depth);
    var trace: seq<D.Moment> :| D.IsDelivery(env, headers, blocks, trace) && trace[|blocks|].chain.states == states;
    D.DeliveryTracks(env, headers, blocks, trace, |blocks|);
    CalmIsClosed(env, trace[|blocks|]);
    var s := StoreFor(H, anchor, open, depth, env, trace[|blocks|].chain.signed, states);
  }

  lemma CalmIsClosed(env: C.Env, m: D.Moment)
    requires D.Calm(env, m)
    ensures Closed(env, m.chain.signed, m.chain.states)
  {
    var c := m.chain;
    forall r | r in c.states && r !in env.anchors
      ensures C.RootOf(env, c.signed[r]) == r && env.depth(c.signed[r].block.parentRoot) < env.depth(r)
    {
      assert env.depth(c.headers[r].parentRoot) < env.depth(env.H.header(c.headers[r]));
    }
  }
}
