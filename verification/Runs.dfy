/** Whole chains: sequences of accepted blocks from genesis, and what holds after each of them. */
module Runs {
  import opened Types
  import opened Transition
  import opened Bookkeeping

  /** Block `i` takes state `i` to state `i + 1`. */
  ghost predicate Accepted(H: Hasher, states: seq<State>, blocks: seq<Block>, i: nat) {
    i < |blocks| && i + 1 < |states| && StateTransition(H, states[i], blocks[i]) == Ok(states[i + 1])
  }

  /** A run: the states before, between and after a sequence of accepted blocks. */
  ghost predicate IsRun(H: Hasher, states: seq<State>, blocks: seq<Block>) {
    && |states| == |blocks| + 1
    && forall i: nat {:trigger Accepted(H, states, blocks, i)} :: i < |blocks| ==> Accepted(H, states, blocks, i)
  }

  lemma GenesisInv(H: Hasher, genesisTime: nat, validators: seq<Validator>)
    ensures var g := Genesis(H, genesisTime, validators);
            && Inv(H, g) && Fresh(g)
            && g.genesisTime == genesisTime && g.slot == 0 && g.validators == validators
            && g.header.stateRoot == ZERO && g.header.bodyRoot == H.body([])
  {
  }

  lemma AcceptedStep(H: Hasher, s: State, b: Block)
    requires CollisionFree(H) && Inv(H, s) && StateTransition(H, s, b).Ok?
    ensures Inv(H, StateTransition(H, s, b).value) && Settled(H, StateTransition(H, s, b).value)
    ensures Extends(s, StateTransition(H, s, b).value)
  {
    BlockKeepsInv(H, s, b);
  }

  /** The bookkeeping invariant holds of every state of a run; with a block there, the state is settled. */
  lemma {:induction false} RunKeepsInv(H: Hasher, states: seq<State>, blocks: seq<Block>, k: nat)
    requires CollisionFree(H) && IsRun(H, states, blocks) && Inv(H, states[0]) && k < |states|
    ensures Inv(H, states[k])
    ensures k > 0 ==> Settled(H, states[k])
  {
    if k > 0 {
      RunKeepsInv(H, states, blocks, k - 1);
      assert Accepted(H, states, blocks, k - 1);
      AcceptedStep(H, states[k - 1], blocks[k - 1]);
    }
  }

  ghost function Extensions(s: State): iset<State> {
    iset t: State | Extends(s, t)
  }

  ghost function AllRuns(H: Hasher): iset<(seq<State>, seq<Block>)> {
    iset x: (seq<State>, seq<Block>) | IsRun(H, x.0, x.1) && Inv(H, x.0[0])
  }

  lemma ExtendsItself(H: Hasher, s: State)
    requires Inv(H, s)
    ensures s in Extensions(s)
  {
  }

  lemma ExtendsTransitive(s: State, t: State, u: State)
    requires t in Extensions(s) && u in Extensions(t)
    ensures u in Extensions(s)
  {
    forall x: Slot | JustifiedAt(s, x) ensures JustifiedAt(u, x) {
      assert JustifiedAt(t, x);
    }
  }

  lemma NextExtends(H: Hasher, states: seq<State>, blocks: seq<Block>, i: nat)
    requires CollisionFree(H) && (states, blocks) in AllRuns(H) && i < |blocks| && |states| == |blocks| + 1
    ensures states[i + 1] in Extensions(states[i])
  {
    RunKeepsInv(H, states, blocks, i);
    assert Accepted(H, states, blocks, i);
    AcceptedStep(H, states[i], blocks[i]);
  }

  lemma StartExtends(H: Hasher, states: seq<State>, blocks: seq<Block>, i: nat)
    requires CollisionFree(H) && (states, blocks) in AllRuns(H) && i < |states|
    ensures states[i] in Extensions(states[i])
  {
    RunKeepsInv(H, states, blocks, i);
    ExtendsItself(H, states[i]);
  }

  lemma {:induction false} LaterExtends(H: Hasher, states: seq<State>, blocks: seq<Block>, i: nat, j: nat)
    requires CollisionFree(H) && (states, blocks) in AllRuns(H) && i <= j < |states| == |blocks| + 1
    ensures states[j] in Extensions(states[i])
    decreases j
  {
    if i == j {
      StartExtends(H, states, blocks, i);
    } else {
      LaterExtends(H, states, blocks, i, j - 1);
      NextExtends(H, states, blocks, j - 1);
      ExtendsTransitive(states[i], states[j - 1], states[j]);
    }
  }

  /** A later state of a run extends an earlier one. */
  lemma RunExtends(H: Hasher, states: seq<State>, blocks: seq<Block>, i: nat, j: nat)
    requires CollisionFree(H) && IsRun(H, states, blocks) && Inv(H, states[0]) && i <= j < |states|
    ensures Extends(states[i], states[j])
  {
    LaterExtends(H, states, blocks, i, j);
  }

  /** Finality is monotone and stays on one chain: what any earlier state of a run finalized, justified or
      recorded as an ancestor is kept by every later one. */
  lemma FinalityNeverReverts(H: Hasher, states: seq<State>, blocks: seq<Block>, i: nat, j: nat)
    requires CollisionFree(H) && IsRun(H, states, blocks) && Inv(H, states[0]) && i <= j < |states|
    ensures var early, late := states[i], states[j];
            && early.finalized.slot <= late.finalized.slot <= late.justified.slot
            && early.history <= late.history
            && (i > 0 ==>
                  OnChain(late, early.finalized) && OnChain(late, late.finalized) && OnChain(late, late.justified))
            && forall t: Slot :: JustifiedAt(early, t) ==> JustifiedAt(late, t)
  {
    RunExtends(H, states, blocks, i, j);
    RunKeepsInv(H, states, blocks, i);
    RunKeepsInv(H, states, blocks, j);
  }

  // History as the ancestor index

  /** `history` holds exactly the genesis root and the roots of all blocks but the last, each at its slot. */
  ghost predicate AncestorIndex(H: Hasher, g: State, blocks: seq<Block>, history: seq<Root>)
    requires blocks != []
  {
    var k := |blocks| - 1;
    && |history| == blocks[k].slot
    && (forall i, j :: 0 <= i < j <= k ==> 0 < blocks[i].slot < blocks[j].slot)
    && 0 < blocks[k].slot && history[0] == TipRoot(H, g)
    && (forall i :: 0 <= i < k ==> blocks[i].slot < |history| && history[blocks[i].slot] == BlockRoot(H, blocks[i]))
    && (forall t: Slot :: 0 < t < |history| && history[t] != ZERO ==> exists i :: 0 <= i < k && blocks[i].slot == t)
  }

  /** The state is the one after the last of `blocks`, and its history is their ancestor index. */
  ghost predicate IndexedBy(H: Hasher, g: State, blocks: seq<Block>, s: State)
    requires blocks != []
  {
    var last := blocks[|blocks| - 1];
    AncestorIndex(H, g, blocks, s.history) && TipRoot(H, s) == BlockRoot(H, last) && s.header.slot == last.slot
  }

  /** After any run from genesis the history is the ancestor index of the run, and the tip is the last block. */
  lemma {:induction false} HistoryIsAncestorIndex(H: Hasher, states: seq<State>, blocks: seq<Block>, k: nat)
    requires CollisionFree(H) && IsRun(H, states, blocks) && Inv(H, states[0]) && Fresh(states[0])
    requires 0 < k < |states|
    ensures IndexedBy(H, states[0], blocks[..k], states[k])
  {
    var b := blocks[k - 1];
    RunFollows(H, states, blocks, k - 1);
    assert blocks[..k] == blocks[..k - 1] + [b];
    if k == 1 {
      FirstIndex(H, states[0], b, states[1]);
    } else {
      HistoryIsAncestorIndex(H, states, blocks, k - 1);
      IndexGrows(H, states[0], blocks[..k - 1], states[k - 1], b, states[k]);
    }
  }

  lemma RunFollows(H: Hasher, states: seq<State>, blocks: seq<Block>, k: nat)
    requires CollisionFree(H) && IsRun(H, states, blocks) && Inv(H, states[0]) && k < |blocks|
    ensures Follows(H, states[k], blocks[k], states[k + 1])
  {
    RunKeepsInv(H, states, blocks, k);
    assert Accepted(H, states, blocks, k);
    TipIsLastBlock(H, states[k], blocks[k]);
  }

  /** `t` follows `s` by the block `b`. */
  ghost predicate Follows(H: Hasher, s: State, b: Block, t: State) {
    && TipRoot(H, t) == BlockRoot(H, b) && t.header.slot == b.slot > s.header.slot
    && t.history == s.history + [TipRoot(H, s)] + EmptySlots(b.slot - s.header.slot - 1)
  }

  lemma TipIsLastBlock(H: Hasher, s: State, b: Block)
    requires CollisionFree(H) && Inv(H, s) && StateTransition(H, s, b).Ok?
    ensures Follows(H, s, b, StateTransition(H, s, b).value)
  {
    BlockKeepsInv(H, s, b);
    assert CacheStateRoot(H, StateTransition(H, s, b).value).header == HeaderOf(H, b);
  }

  lemma FirstIndex(H: Hasher, g: State, b: Block, t: State)
    requires Fresh(g) && Follows(H, g, b, t)
    ensures IndexedBy(H, g, [b], t)
  {
  }

  lemma IndexGrows(H: Hasher, g: State, front: seq<Block>, s: State, b: Block, t: State)
    requires front != [] && IndexedBy(H, g, front, s) && Follows(H, s, b, t)
    ensures IndexedBy(H, g, front + [b], t)
  {
    var blocks := front + [b];
    forall u: Slot | 0 < u < |t.history| && t.history[u] != ZERO
      ensures exists i :: 0 <= i < |front| && blocks[i].slot == u
    {
      if u < |s.history| {
        var i :| 0 <= i < |front| - 1 && front[i].slot == u;
        assert blocks[i].slot == u;
      } else {
        assert blocks[|front| - 1].slot == u;
      }
    }
  }
}
