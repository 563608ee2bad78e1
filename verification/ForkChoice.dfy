/** LMD-GHOST: attestation weights by walking back from each vote, and the head by following the
    heaviest child. Both are proved equal to definitions on the block tree that mention no loop. */
module ForkChoice {
  import opened Types

  datatype BlockRef = BlockRef(slot: Slot, parent: Root)

  type BlockTree = map<Root, BlockRef>

  type Votes = map<ValidatorIndex, AttestationData>

  /** The step from `r` to its parent goes to a lower slot, if the parent is there. */
  predicate LinkUp(blocks: BlockTree, r: Root) {
    r in blocks && blocks[r].parent in blocks ==> blocks[blocks[r].parent].slot < blocks[r].slot
  }

  ghost predicate SlotIncreasing(blocks: BlockTree) {
    forall r: Root {:trigger LinkUp(blocks, r)} :: LinkUp(blocks, r)
  }

  function Height(blocks: BlockTree, r: Root): nat {
    if r in blocks then blocks[r].slot + 1 else 0
  }

  /** `a` is `r` or one of its ancestors; the parent of the lowest stored block counts. */
  ghost predicate IsAncestor(blocks: BlockTree, a: Root, r: Root)
    requires SlotIncreasing(blocks)
    decreases Height(blocks, r)
  {
    a == r || (r in blocks && (assert LinkUp(blocks, r); IsAncestor(blocks, a, blocks[r].parent)))
  }

  lemma {:induction false} AncestorBelow(blocks: BlockTree, a: Root, r: Root)
    requires SlotIncreasing(blocks) && IsAncestor(blocks, a, r) && a in blocks
    ensures r in blocks && (a == r || blocks[a].slot < blocks[r].slot)
    decreases Height(blocks, r)
  {
    if a != r {
      assert LinkUp(blocks, r);
      AncestorBelow(blocks, a, blocks[r].parent);
    }
  }

  lemma {:induction false} AncestorTransitive(blocks: BlockTree, a: Root, b: Root, r: Root)
    requires SlotIncreasing(blocks) && IsAncestor(blocks, a, b) && IsAncestor(blocks, b, r)
    ensures IsAncestor(blocks, a, r)
    decreases Height(blocks, r)
  {
    if b != r {
      assert LinkUp(blocks, r);
      AncestorTransitive(blocks, a, b, blocks[r].parent);
    }
  }

  /** The ancestors of one block form a chain. */
  lemma {:induction false} AncestorsLinear(blocks: BlockTree, a: Root, b: Root, r: Root)
    requires SlotIncreasing(blocks) && IsAncestor(blocks, a, r) && IsAncestor(blocks, b, r)
    ensures IsAncestor(blocks, a, b) || IsAncestor(blocks, b, a)
    decreases Height(blocks, r)
  {
    if a != r && b != r {
      assert LinkUp(blocks, r);
      AncestorsLinear(blocks, a, b, blocks[r].parent);
    }
  }

  lemma NotOwnParentsAncestor(blocks: BlockTree, a: Root)
    requires SlotIncreasing(blocks) && a in blocks
    ensures !IsAncestor(blocks, a, blocks[a].parent)
  {
    assert LinkUp(blocks, a);
    if IsAncestor(blocks, a, blocks[a].parent) {
      AncestorBelow(blocks, a, blocks[a].parent);
    }
  }

  /** No block descends from two siblings. */
  lemma SiblingsSplit(blocks: BlockTree, a: Root, b: Root, r: Root)
    requires SlotIncreasing(blocks) && a in blocks && b in blocks && a != b && blocks[a].parent == blocks[b].parent
    ensures !(IsAncestor(blocks, a, r) && IsAncestor(blocks, b, r))
  {
    if IsAncestor(blocks, a, r) && IsAncestor(blocks, b, r) {
      AncestorsLinear(blocks, a, b, r);
      NotOwnParentsAncestor(blocks, a);
      NotOwnParentsAncestor(blocks, b);
    }
  }

  // Weights

  /** The validators among `who` whose vote is for `r` or a descendant. */
  ghost function SupportersIn(blocks: BlockTree, votes: Votes, who: set<ValidatorIndex>, r: Root): set<ValidatorIndex>
    requires SlotIncreasing(blocks)
  {
    set v | v in who && v in votes && IsAncestor(blocks, r, votes[v].head.root)
  }

  ghost function Supporters(blocks: BlockTree, votes: Votes, r: Root): set<ValidatorIndex>
    requires SlotIncreasing(blocks)
  {
    SupportersIn(blocks, votes, votes.Keys, r)
  }

  predicate Above(blocks: BlockTree, start: Slot, r: Root) {
    r in blocks && blocks[r].slot > start
  }

  /** The weight of a block above the start slot is the number of votes in its subtree. */
  ghost function Weight(blocks: BlockTree, votes: Votes, start: Slot, r: Root): nat
    requires SlotIncreasing(blocks)
  {
    if Above(blocks, start, r) then |Supporters(blocks, votes, r)| else 0
  }

  function Get(weights: map<Root, nat>, r: Root): nat {
    if r in weights then weights[r] else 0
  }

  method ComputeBlockWeights(start: Slot, blocks: BlockTree, votes: Votes) returns (weights: map<Root, nat>)
    requires SlotIncreasing(blocks)
    ensures forall r :: Get(weights, r) == Weight(blocks, votes, start, r)
    ensures forall r :: r in weights ==> weights[r] > 0
    ensures forall r :: r in weights ==> weights[r] == |Supporters(blocks, votes, r)|
    ensures forall r :: r in weights <==> r in blocks && blocks[r].slot > start && Supporters(blocks, votes, r) != {}
  {
    weights := map[];
    var rest := votes.Keys;
    while rest != {}
      invariant rest <= votes.Keys
      invariant forall r :: Get(weights, r) == PartialWeight(blocks, votes, start, votes.Keys - rest, r)
      invariant forall r :: r in weights ==> weights[r] > 0
    {
      var v :| v in rest;
      weights := AddVote(start, blocks, votes, votes.Keys - rest, v, weights);
      assert votes.Keys - (rest - {v}) == votes.Keys - rest + {v};
      rest := rest - {v};
    }
    assert votes.Keys - {} == votes.Keys;
    forall r ensures r in weights ==> weights[r] == |Supporters(blocks, votes, r)|
             ensures r in weights <==> r in blocks && blocks[r].slot > start && Supporters(blocks, votes, r) != {}
    {
      assert Get(weights, r) == Weight(blocks, votes, start, r);
    }
  }

  ghost function PartialWeight(blocks: BlockTree, votes: Votes, start: Slot, who: set<ValidatorIndex>, r: Root): nat
    requires SlotIncreasing(blocks)
  {
    if Above(blocks, start, r) then |SupportersIn(blocks, votes, who, r)| else 0
  }

  lemma OneMoreVoter(blocks: BlockTree, votes: Votes, start: Slot, who: set<ValidatorIndex>, v: ValidatorIndex, r: Root)
    requires SlotIncreasing(blocks) && v in votes && v !in who
    ensures PartialWeight(blocks, votes, start, who + {v}, r)
         == PartialWeight(blocks, votes, start, who, r)
          + if Above(blocks, start, r) && IsAncestor(blocks, r, votes[v].head.root) then 1 else 0
  {
    var before := SupportersIn(blocks, votes, who, r);
    if IsAncestor(blocks, r, votes[v].head.root) {
      assert SupportersIn(blocks, votes, who + {v}, r) == before + {v};
    } else {
      assert SupportersIn(blocks, votes, who + {v}, r) == before;
    }
  }

  /** One walk from the vote's head back to the start slot. */
  method AddVote(start: Slot, blocks: BlockTree, votes: Votes, ghost who: set<ValidatorIndex>, v: ValidatorIndex,
                 weights: map<Root, nat>)
    returns (w: map<Root, nat>)
    requires SlotIncreasing(blocks) && v in votes && v !in who
    requires forall r :: Get(weights, r) == PartialWeight(blocks, votes, start, who, r)
    requires forall r :: r in weights ==> weights[r] > 0
    ensures forall r :: Get(w, r) == PartialWeight(blocks, votes, start, who + {v}, r)
    ensures forall r :: r in w ==> w[r] > 0
  {
    w := weights;
    var current := votes[v].head.root;
    ghost var head := current;
    ghost var visited: set<Root> := {};
    while current in blocks && blocks[current].slot > start
      invariant forall r :: r in visited ==> r in blocks && Height(blocks, r) > Height(blocks, current)
      invariant forall r :: Above(blocks, start, r) && IsAncestor(blocks, r, head)
                       <==> r in visited || (Above(blocks, start, r) && IsAncestor(blocks, r, current))
      invariant forall r :: Get(w, r) == Get(weights, r) + if r in visited then 1 else 0
      invariant forall r :: r in w ==> w[r] > 0
      decreases Height(blocks, current)
    {
      assert LinkUp(blocks, current);
      w := w[current := Get(w, current) + 1];
      visited := visited + {current};
      current := blocks[current].parent;
    }
    forall r ensures Get(w, r) == PartialWeight(blocks, votes, start, who + {v}, r) {
      if Above(blocks, start, r) && IsAncestor(blocks, r, current) {
        AncestorBelow(blocks, r, current);
        assert false;
      }
      OneMoreVoter(blocks, votes, start, who, v, r);
    }
  }

  // Head

  ghost predicate Qualifies(blocks: BlockTree, votes: Votes, start: Slot, minScore: nat, r: Root)
    requires SlotIncreasing(blocks)
  {
    minScore > 0 ==> Weight(blocks, votes, start, r) >= minScore
  }

  /** The children of `head` that reach the minimum score. A zero parent root is nobody's child link. */
  ghost function Children(blocks: BlockTree, votes: Votes, start: Slot, minScore: nat, head: Root): set<Root>
    requires SlotIncreasing(blocks)
  {
    set r | r in blocks && blocks[r].parent == head && head != ZERO && Qualifies(blocks, votes, start, minScore, r)
  }

  /** `a` is at least as good as `b`: heavier, or as heavy with a root at least as high. */
  ghost predicate Beats(blocks: BlockTree, votes: Votes, start: Slot, a: Root, b: Root)
    requires SlotIncreasing(blocks)
  {
    var wa, wb := Weight(blocks, votes, start, a), Weight(blocks, votes, start, b);
    wa > wb || (wa == wb && a >= b)
  }

  ghost predicate IsBest(blocks: BlockTree, votes: Votes, start: Slot, c: Root, among: set<Root>)
    requires SlotIncreasing(blocks)
  {
    c in among && forall x :: x in among ==> Beats(blocks, votes, start, c, x)
  }

  lemma {:induction false} HasBest(blocks: BlockTree, votes: Votes, start: Slot, among: set<Root>) returns (c: Root)
    requires SlotIncreasing(blocks) && among != {}
    ensures IsBest(blocks, votes, start, c, among)
  {
    var x :| x in among;
    var rest := among - {x};
    c := x;
    assert forall y :: y in among ==> y == x || y in rest;
    if rest != {} {
      var b := HasBest(blocks, votes, start, rest);
      if !Beats(blocks, votes, start, x, b) { c := b; }
    }
  }

  ghost function Best(blocks: BlockTree, votes: Votes, start: Slot, among: set<Root>): (c: Root)
    requires SlotIncreasing(blocks) && among != {}
    ensures IsBest(blocks, votes, start, c, among)
  {
    assert exists c :: IsBest(blocks, votes, start, c, among) by { var _ := HasBest(blocks, votes, start, among); }
    var c :| IsBest(blocks, votes, start, c, among);
    c
  }

  ghost function Higher(blocks: BlockTree, head: Root): set<Root> {
    set r | r in blocks && Height(blocks, r) > Height(blocks, head)
  }

  lemma ChildHigher(blocks: BlockTree, head: Root, c: Root)
    requires SlotIncreasing(blocks) && head in blocks && c in blocks && blocks[c].parent == head
    ensures Higher(blocks, c) < Higher(blocks, head)
    ensures blocks[head].slot < blocks[c].slot
  {
    assert LinkUp(blocks, c);
    assert c in Higher(blocks, head) && c !in Higher(blocks, c);
  }

  /** The head: from `head` take the best qualifying child until there is none. */
  ghost function GhostHead(blocks: BlockTree, votes: Votes, start: Slot, minScore: nat, head: Root): Root
    requires SlotIncreasing(blocks) && head in blocks
    decreases Higher(blocks, head)
  {
    var children := Children(blocks, votes, start, minScore, head);
    if children == {} then head
    else
      var c := Best(blocks, votes, start, children);
      ChildHigher(blocks, head, c);
      GhostHead(blocks, votes, start, minScore, c)
  }

  ghost predicate LowestSlot(blocks: BlockTree, r: Root) {
    r in blocks && forall x :: x in blocks ==> blocks[r].slot <= blocks[x].slot
  }

  /** `head` and `weights` are the fork choice from a block of the tree. */
  ghost predicate ChosenFrom(blocks: BlockTree, votes: Votes, minScore: nat, from: Root, head: Root,
                             weights: map<Root, nat>)
    requires SlotIncreasing(blocks)
  {
    && from in blocks
    && head == GhostHead(blocks, votes, blocks[from].slot, minScore, from)
    && (forall r :: Get(weights, r) == Weight(blocks, votes, blocks[from].slot, r))
  }

  method LowestBlock(blocks: BlockTree) returns (start: Root)
    requires blocks != map[]
    ensures LowestSlot(blocks, start)
  {
    var rest := blocks.Keys;
    start :| start in rest;
    rest := rest - {start};
    while rest != {}
      invariant rest <= blocks.Keys && start in blocks
      invariant forall x :: x in blocks && x !in rest ==> blocks[start].slot <= blocks[x].slot
    {
      var r :| r in rest;
      if blocks[r].slot < blocks[start].slot { start := r; }
      rest := rest - {r};
    }
  }

  method ComputeLmdGhostHead(startRoot: Root, blocks: BlockTree, votes: Votes, minScore: nat)
    returns (head: Root, weights: map<Root, nat>)
    requires SlotIncreasing(blocks)
    ensures blocks == map[] || (startRoot != ZERO && startRoot !in blocks) ==> head == startRoot && weights == map[]
    ensures startRoot != ZERO && startRoot in blocks ==> ChosenFrom(blocks, votes, minScore, startRoot, head, weights)
    ensures startRoot == ZERO && blocks != map[] ==>
              exists from :: LowestSlot(blocks, from) && ChosenFrom(blocks, votes, minScore, from, head, weights)
  {
    if blocks == map[] {
      return startRoot, map[];
    }
    var from := startRoot;
    if from == ZERO {
      from := LowestBlock(blocks);
    }
    if from !in blocks {
      return from, map[];
    }
    var start := blocks[from].slot;
    weights := ComputeBlockWeights(start, blocks, votes);
    var children := BuildChildren(blocks, votes, start, minScore, weights);
    head := from;
    while head in children && children[head] != []
      invariant head in blocks
      invariant GhostHead(blocks, votes, start, minScore, head) == GhostHead(blocks, votes, start, minScore, from)
      decreases Higher(blocks, head)
    {
      var c := PickBest(blocks, votes, start, children[head], weights);
      ghost var among := Children(blocks, votes, start, minScore, head);
      assert c in among;
      BestUnique(blocks, votes, start, c, Best(blocks, votes, start, among), among);
      ChildHigher(blocks, head, c);
      head := c;
    }
    assert forall r :: !Listed(children, head, r);
    assert Children(blocks, votes, start, minScore, head) == {};
  }

  lemma BestUnique(blocks: BlockTree, votes: Votes, start: Slot, a: Root, b: Root, among: set<Root>)
    requires SlotIncreasing(blocks) && IsBest(blocks, votes, start, a, among) && IsBest(blocks, votes, start, b, among)
    ensures a == b
  {
  }

  predicate Listed(children: map<Root, seq<Root>>, parent: Root, r: Root) {
    parent in children && r in children[parent]
  }

  /** Visits the blocks in any order and lists each under its parent. */
  method BuildChildren(blocks: BlockTree, votes: Votes, start: Slot, minScore: nat, weights: map<Root, nat>)
    returns (children: map<Root, seq<Root>>)
    requires SlotIncreasing(blocks)
    requires forall r :: Get(weights, r) == Weight(blocks, votes, start, r)
    ensures forall p, r :: Listed(children, p, r) <==> r in Children(blocks, votes, start, minScore, p)
  {
    children := map[];
    var rest := blocks.Keys;
    while rest != {}
      invariant rest <= blocks.Keys
      invariant forall p, r :: Listed(children, p, r) <==>
                r in Children(blocks, votes, start, minScore, p) && r !in rest
    {
      var root :| root in rest;
      var parent := blocks[root].parent;
      ghost var before := children;
      if parent != ZERO && !(minScore > 0 && Get(weights, root) < minScore) {
        children := children[parent := (if parent in children then children[parent] else []) + [root]];
      }
      forall p, r ensures Listed(children, p, r) <==>
          Listed(before, p, r) || (r == root && root in Children(blocks, votes, start, minScore, p)) {
      }
      rest := rest - {root};
    }
  }

  method PickBest(blocks: BlockTree, votes: Votes, start: Slot, list: seq<Root>, weights: map<Root, nat>)
    returns (c: Root)
    requires SlotIncreasing(blocks) && list != []
    requires forall r :: Get(weights, r) == Weight(blocks, votes, start, r)
    ensures IsBest(blocks, votes, start, c, set x | x in list)
  {
    c := list[0];
    for i := 1 to |list|
      invariant c in list
      invariant forall k :: 0 <= k < i ==> Beats(blocks, votes, start, c, list[k])
    {
      var r := list[i];
      if Get(weights, r) > Get(weights, c) || (Get(weights, r) == Get(weights, c) && r >= c) {
        c := r;
      }
    }
  }

  // What the head is

  /** A path of best qualifying children that ends where there are none. */
  ghost predicate IsGhostPath(blocks: BlockTree, votes: Votes, start: Slot, minScore: nat, path: seq<Root>)
    requires SlotIncreasing(blocks)
  {
    && path != [] && path[0] in blocks
    && var children := Children(blocks, votes, start, minScore, path[0]);
       if |path| == 1 then children == {}
       else IsBest(blocks, votes, start, path[1], children) && IsGhostPath(blocks, votes, start, minScore, path[1..])
  }

  /** Any such path from `path[0]` ends at the computed head. */
  lemma {:induction false} GhostPathEndsAtHead(blocks: BlockTree, votes: Votes, start: Slot, minScore: nat,
                                               path: seq<Root>)
    requires SlotIncreasing(blocks) && IsGhostPath(blocks, votes, start, minScore, path)
    ensures path[|path| - 1] == GhostHead(blocks, votes, start, minScore, path[0])
  {
    if |path| > 1 {
      var children := Children(blocks, votes, start, minScore, path[0]);
      BestUnique(blocks, votes, start, path[1], Best(blocks, votes, start, children), children);
      GhostPathEndsAtHead(blocks, votes, start, minScore, path[1..]);
    }
  }

  /** There is such a path, and only one. */
  lemma {:induction false} GhostPathUnique(blocks: BlockTree, votes: Votes, start: Slot, minScore: nat, p: seq<Root>,
                                           q: seq<Root>)
    requires SlotIncreasing(blocks)
    requires IsGhostPath(blocks, votes, start, minScore, p) && IsGhostPath(blocks, votes, start, minScore, q)
    requires p[0] == q[0]
    ensures p == q
  {
    if |p| > 1 && |q| > 1 {
      BestUnique(blocks, votes, start, p[1], q[1], Children(blocks, votes, start, minScore, p[0]));
      GhostPathUnique(blocks, votes, start, minScore, p[1..], q[1..]);
      assert p == [p[0]] + p[1..] && q == [q[0]] + q[1..];
    }
  }

  lemma {:induction false} GhostPathExists(blocks: BlockTree, votes: Votes, start: Slot, minScore: nat, head: Root)
    requires SlotIncreasing(blocks) && head in blocks
    ensures exists path :: IsGhostPath(blocks, votes, start, minScore, path) && path[0] == head
    decreases Higher(blocks, head)
  {
    var children := Children(blocks, votes, start, minScore, head);
    if children == {} {
      assert IsGhostPath(blocks, votes, start, minScore, [head]);
    } else {
      var c := Best(blocks, votes, start, children);
      ChildHigher(blocks, head, c);
      GhostPathExists(blocks, votes, start, minScore, c);
      var path :| IsGhostPath(blocks, votes, start, minScore, path) && path[0] == c;
      assert ([head] + path)[1..] == path;
      assert IsGhostPath(blocks, votes, start, minScore, [head] + path);
    }
  }

  /** The head is a stored descendant of the start that has no qualifying child. */
  lemma {:induction false} HeadDescends(blocks: BlockTree, votes: Votes, start: Slot, minScore: nat, from: Root)
    requires SlotIncreasing(blocks) && from in blocks
    ensures var head := GhostHead(blocks, votes, start, minScore, from);
            && head in blocks && IsAncestor(blocks, from, head)
            && Children(blocks, votes, start, minScore, head) == {}
    decreases Higher(blocks, from)
  {
    var children := Children(blocks, votes, start, minScore, from);
    if children != {} {
      var c := Best(blocks, votes, start, children);
      ChildHigher(blocks, from, c);
      HeadDescends(blocks, votes, start, minScore, c);
      assert LinkUp(blocks, c);
      assert IsAncestor(blocks, from, blocks[c].parent);
      AncestorTransitive(blocks, from, c, GhostHead(blocks, votes, start, minScore, c));
    }
  }

  // The same in terms of the tree and the votes alone

  ghost function Support(blocks: BlockTree, votes: Votes, r: Root): nat
    requires SlotIncreasing(blocks)
  {
    |Supporters(blocks, votes, r)|
  }

  /** `c` is a stored child of `p` with at least `minScore` votes for it or below it. */
  ghost predicate BackedChild(blocks: BlockTree, votes: Votes, minScore: nat, p: Root, c: Root)
    requires SlotIncreasing(blocks)
  {
    p != ZERO && c in blocks && blocks[c].parent == p && Support(blocks, votes, c) >= minScore
  }

  /** A path from block to backed child that takes the child with most votes, the highest root among equals, and
      ends at a block without a backed child. */
  ghost predicate IsHeaviestPath(blocks: BlockTree, votes: Votes, minScore: nat, path: seq<Root>)
    requires SlotIncreasing(blocks)
  {
    && path != [] && path[0] in blocks
    && if |path| == 1 then forall x :: !BackedChild(blocks, votes, minScore, path[0], x)
       else
         && BackedChild(blocks, votes, minScore, path[0], path[1])
         && (forall x: Root :: BackedChild(blocks, votes, minScore, path[0], x) && x != path[1] ==>
               || Support(blocks, votes, x) < Support(blocks, votes, path[1])
               || (Support(blocks, votes, x) == Support(blocks, votes, path[1]) && x < path[1]))
         && IsHeaviestPath(blocks, votes, minScore, path[1..])
  }

  lemma ChildrenAreBacked(blocks: BlockTree, votes: Votes, start: Slot, minScore: nat, p: Root, c: Root)
    requires SlotIncreasing(blocks) && p in blocks && start <= blocks[p].slot
    ensures c in Children(blocks, votes, start, minScore, p) <==> BackedChild(blocks, votes, minScore, p, c)
    ensures c in blocks && blocks[c].parent == p ==>
              blocks[c].slot > start && Weight(blocks, votes, start, c) == Support(blocks, votes, c)
  {
    assert LinkUp(blocks, c);
  }

  lemma {:induction false} HeaviestIsGhost(blocks: BlockTree, votes: Votes, start: Slot, minScore: nat, path: seq<Root>)
    requires SlotIncreasing(blocks) && path != [] && path[0] in blocks && start <= blocks[path[0]].slot
    ensures IsHeaviestPath(blocks, votes, minScore, path) <==> IsGhostPath(blocks, votes, start, minScore, path)
  {
    forall c ensures c in Children(blocks, votes, start, minScore, path[0])
                <==> BackedChild(blocks, votes, minScore, path[0], c)
    {
      ChildrenAreBacked(blocks, votes, start, minScore, path[0], c);
    }
    if |path| > 1 && BackedChild(blocks, votes, minScore, path[0], path[1]) {
      HeaviestNext(blocks, votes, start, minScore, path[0], path[1]);
      HeaviestIsGhost(blocks, votes, start, minScore, path[1..]);
    }
  }

  lemma HeaviestNext(blocks: BlockTree, votes: Votes, start: Slot, minScore: nat, p: Root, c: Root)
    requires SlotIncreasing(blocks) && p in blocks && start <= blocks[p].slot
    requires BackedChild(blocks, votes, minScore, p, c)
    ensures start <= blocks[c].slot
    ensures IsBest(blocks, votes, start, c, Children(blocks, votes, start, minScore, p))
       <==> forall x: Root :: BackedChild(blocks, votes, minScore, p, x) && x != c ==>
              || Support(blocks, votes, x) < Support(blocks, votes, c)
              || (Support(blocks, votes, x) == Support(blocks, votes, c) && x < c)
  {
    ChildrenAreBacked(blocks, votes, start, minScore, p, c);
    forall x: Root
      ensures x in Children(blocks, votes, start, minScore, p) <==> BackedChild(blocks, votes, minScore, p, x)
    {
      ChildrenAreBacked(blocks, votes, start, minScore, p, x);
    }
    forall x: Root | BackedChild(blocks, votes, minScore, p, x)
      ensures Weight(blocks, votes, start, x) == Support(blocks, votes, x)
    {
      ChildrenAreBacked(blocks, votes, start, minScore, p, x);
    }
  }

  /** From every stored block there is exactly one heaviest path, and it ends at the computed head. */
  lemma HeadEndsHeaviestPath(blocks: BlockTree, votes: Votes, minScore: nat, from: Root) returns (path: seq<Root>)
    requires SlotIncreasing(blocks) && from in blocks
    ensures IsHeaviestPath(blocks, votes, minScore, path) && path[0] == from
    ensures path[|path| - 1] == GhostHead(blocks, votes, blocks[from].slot, minScore, from)
    ensures forall q :: IsHeaviestPath(blocks, votes, minScore, q) && q[0] == from ==> q == path
  {
    var start := blocks[from].slot;
    GhostPathExists(blocks, votes, start, minScore, from);
    path :| IsGhostPath(blocks, votes, start, minScore, path) && path[0] == from;
    HeaviestIsGhost(blocks, votes, start, minScore, path);
    GhostPathEndsAtHead(blocks, votes, start, minScore, path);
    forall q | IsHeaviestPath(blocks, votes, minScore, q) && q[0] == from ensures q == path {
      HeaviestIsGhost(blocks, votes, start, minScore, q);
      GhostPathUnique(blocks, votes, start, minScore, q, path);
    }
  }

  /** A threshold is met all along the way to the head, and by no child of the head. */
  lemma {:induction false} ThresholdPath(blocks: BlockTree, votes: Votes, start: Slot, minScore: nat, from: Root,
                                         r: Root)
    requires SlotIncreasing(blocks) && from in blocks && start <= blocks[from].slot
    ensures var head := GhostHead(blocks, votes, start, minScore, from);
            && (r in blocks && r != from && IsAncestor(blocks, from, r) && IsAncestor(blocks, r, head) ==>
                  Support(blocks, votes, r) >= minScore)
            && !BackedChild(blocks, votes, minScore, head, r)
    decreases Higher(blocks, from)
  {
    var children := Children(blocks, votes, start, minScore, from);
    ChildrenAreBacked(blocks, votes, start, minScore, from, r);
    if children != {} {
      var c := Best(blocks, votes, start, children);
      ChildHigher(blocks, from, c);
      ChildrenAreBacked(blocks, votes, start, minScore, from, c);
      ThresholdPath(blocks, votes, start, minScore, c, r);
      var head := GhostHead(blocks, votes, start, minScore, c);
      if r in blocks && r != from && IsAncestor(blocks, from, r) && IsAncestor(blocks, r, head) {
        HeadDescends(blocks, votes, start, minScore, c);
        OnWayDown(blocks, from, c, r, head);
      }
    } else if r in blocks && r != from && IsAncestor(blocks, from, r) && IsAncestor(blocks, r, from) {
      AncestorBelow(blocks, from, r);
      AncestorBelow(blocks, r, from);
    }
  }

  /** Between a block and a descendant lies its child on the way, or something below that child. */
  lemma OnWayDown(blocks: BlockTree, from: Root, c: Root, r: Root, head: Root)
    requires SlotIncreasing(blocks) && from in blocks && c in blocks && r in blocks && blocks[c].parent == from
    requires r != from && IsAncestor(blocks, from, r) && IsAncestor(blocks, r, head) && IsAncestor(blocks, c, head)
    ensures IsAncestor(blocks, c, r)
  {
    AncestorsLinear(blocks, c, r, head);
    if r != c && IsAncestor(blocks, r, c) {
      assert LinkUp(blocks, c);
      AncestorBelow(blocks, r, from);
      AncestorBelow(blocks, from, r);
    }
  }

  // Conservation of weight

  ghost function SupportersOfAny(blocks: BlockTree, votes: Votes, roots: set<Root>): set<ValidatorIndex>
    requires SlotIncreasing(blocks)
  {
    set v | v in votes && exists r :: r in roots && v in Supporters(blocks, votes, r)
  }

  ghost function TotalSupport(blocks: BlockTree, votes: Votes, roots: set<Root>): nat
    requires SlotIncreasing(blocks)
  {
    if roots == {} then 0
    else
      var r :| r in roots;
      |Supporters(blocks, votes, r)| + TotalSupport(blocks, votes, roots - {r})
  }

  ghost predicate AreSiblings(blocks: BlockTree, roots: set<Root>, parent: Root) {
    forall r :: r in roots ==> r in blocks && blocks[r].parent == parent
  }

  lemma {:induction false} TotalIsUnion(blocks: BlockTree, votes: Votes, roots: set<Root>, parent: Root)
    requires SlotIncreasing(blocks) && AreSiblings(blocks, roots, parent)
    ensures TotalSupport(blocks, votes, roots) == |SupportersOfAny(blocks, votes, roots)|
  {
    if roots == {} {
      assert SupportersOfAny(blocks, votes, roots) == {};
    } else {
      var r :| r in roots && TotalSupport(blocks, votes, roots)
                          == |Supporters(blocks, votes, r)| + TotalSupport(blocks, votes, roots - {r});
      var rest := roots - {r};
      TotalIsUnion(blocks, votes, rest, parent);
      var a, b := Supporters(blocks, votes, r), SupportersOfAny(blocks, votes, rest);
      assert a !! b by {
        forall v | v in a && v in b ensures false {
          var x :| x in rest && v in Supporters(blocks, votes, x);
          SiblingsSplit(blocks, r, x, votes[v].head.root);
        }
      }
      assert SupportersOfAny(blocks, votes, roots) == a + b;
    }
  }

  /** The support of a block's children, added up, is at most its own. */
  lemma ChildrenNeverOutweighParent(blocks: BlockTree, votes: Votes, roots: set<Root>, parent: Root)
    requires SlotIncreasing(blocks) && AreSiblings(blocks, roots, parent)
    ensures TotalSupport(blocks, votes, roots) <= |Supporters(blocks, votes, parent)|
  {
    TotalIsUnion(blocks, votes, roots, parent);
    var union := SupportersOfAny(blocks, votes, roots);
    forall v | v in union ensures v in Supporters(blocks, votes, parent) {
      var r :| r in roots && v in Supporters(blocks, votes, r);
      assert LinkUp(blocks, r);
      assert IsAncestor(blocks, parent, blocks[r].parent);
      AncestorTransitive(blocks, parent, r, votes[v].head.root);
    }
    assert Supporters(blocks, votes, parent) == union + (Supporters(blocks, votes, parent) - union);
  }

  lemma TwoSiblingsShareVotes(blocks: BlockTree, votes: Votes, start: Slot, a: Root, b: Root)
    requires SlotIncreasing(blocks) && a in blocks && b in blocks && a != b && blocks[a].parent == blocks[b].parent
    ensures Weight(blocks, votes, start, a) + Weight(blocks, votes, start, b) <= |votes|
  {
    var x, y := Supporters(blocks, votes, a), Supporters(blocks, votes, b);
    assert x !! y by {
      forall v | v in x && v in y ensures false {
        SiblingsSplit(blocks, a, b, votes[v].head.root);
      }
    }
    assert votes.Keys == (x + y) + (votes.Keys - (x + y));
    assert |x + y| == |x| + |y|;
  }

  // The safe target

  function TwoThirds(n: nat): nat { (2 * n + 2) / 3 }

  /** With a two-thirds threshold a block has at most one qualifying child, and it is the best child. */
  lemma SafeChildIsBest(blocks: BlockTree, votes: Votes, start: Slot, n: nat, head: Root, c: Root)
    requires SlotIncreasing(blocks) && |votes| <= n && 0 < n
    requires c in Children(blocks, votes, start, TwoThirds(n), head)
    ensures Children(blocks, votes, start, TwoThirds(n), head) == {c}
    ensures IsBest(blocks, votes, start, c, Children(blocks, votes, start, 0, head))
  {
    forall x | x in Children(blocks, votes, start, 0, head) && x != c
      ensures Weight(blocks, votes, start, x) < Weight(blocks, votes, start, c)
      ensures x !in Children(blocks, votes, start, TwoThirds(n), head)
    {
      TwoSiblingsShareVotes(blocks, votes, start, x, c);
    }
    forall x | x in Children(blocks, votes, start, TwoThirds(n), head) ensures x == c {
      assert x in Children(blocks, votes, start, 0, head);
    }
  }

  /** The safe target lies on the path to the head: it is the head or one of its ancestors. */
  lemma {:induction false} SafeTargetOnHeadPath(blocks: BlockTree, votes: Votes, start: Slot, n: nat, from: Root)
    requires SlotIncreasing(blocks) && from in blocks && |votes| <= n && 0 < n
    ensures IsAncestor(blocks, GhostHead(blocks, votes, start, TwoThirds(n), from),
                       GhostHead(blocks, votes, start, 0, from))
    decreases Higher(blocks, from)
  {
    var safe := Children(blocks, votes, start, TwoThirds(n), from);
    var all := Children(blocks, votes, start, 0, from);
    if safe == {} {
      HeadDescends(blocks, votes, start, 0, from);
    } else {
      var c := Best(blocks, votes, start, safe);
      SafeChildIsBest(blocks, votes, start, n, from, c);
      BestUnique(blocks, votes, start, c, Best(blocks, votes, start, all), all);
      ChildHigher(blocks, from, c);
      SafeTargetOnHeadPath(blocks, votes, start, n, c);
    }
  }
}
