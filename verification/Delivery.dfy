/** Sequences of received blocks: which states a server ends with, and when the order of arrival matters. */
module Delivery {
  import opened Types
  import opened Cascade

  /** A server's data between two events, with the blocks it knows of in this session. */
  datatype Moment = Moment(chain: Chain, session: set<Root>)

  ghost predicate Calm(env: Env, m: Moment) {
    m.chain in Consistent(env, m.session, [])
  }

  /** What one call of the handler does. The stored blocks change by the received block only, no state is
      lost, and an accepted block whose parent's state is there gets its own. */
  ghost predicate Event(env: Env, m: Moment, sb: SignedBlock, m': Moment) {
    && Calm(env, m') && m.session <= m'.session && m.chain.states <= m'.chain.states
    && m'.chain.signed == SignedAfter(env, m.chain, sb)
    && (Keeps(env, m.chain, sb) ==> RootOf(env, sb) in m'.session)
    && (env.accepts(sb) && sb.block.parentRoot in m.chain.states ==> RootOf(env, sb) in m'.chain.states)
  }

  /** What a call asks the network for. A block that has to wait leads to one request, for a proper ancestor that
      is not stored, exactly when no stored ancestor can be tried; a request leaves the states alone. */
  ghost predicate Asks(env: Env, c: Chain, sb: SignedBlock, requests: seq<Root>, c': Chain) {
    && (sb.block.parentRoot in c.states ==> requests == [])
    && (sb.block.parentRoot !in c.states ==>
          (requests == [] <==> HasTriableAncestor(env, c'.headers, c.states, RootOf(env, sb))))
    && (requests != [] ==>
          && |requests| == 1 && c'.states == c.states
          && requests[0] !in c'.headers && Ancestor(env, c'.headers, requests[0], RootOf(env, sb)))
  }

  /** A server over a database that holds the anchors only. */
  function Start(env: Env, headers: map<Root, Header>): Moment {
    Moment(Chain(headers, map[], env.anchors, map[], map[]), {})
  }

  ghost predicate Startable(env: Env, headers: map<Root, Header>) {
    Lawful(env) && headers.Keys == env.anchors && forall r :: r in headers ==> env.H.header(headers[r]) == r
  }

  /** Event `i` of a sequence of received blocks. */
  ghost predicate Handles(env: Env, blocks: seq<SignedBlock>, trace: seq<Moment>, i: nat) {
    i < |blocks| && i + 1 < |trace| && Event(env, trace[i], blocks[i], trace[i + 1])
  }

  /** The moments before, between and after the events of a fresh server that receives `blocks`. */
  ghost predicate IsDelivery(env: Env, headers: map<Root, Header>, blocks: seq<SignedBlock>, trace: seq<Moment>) {
    && |trace| == |blocks| + 1 && trace[0] == Start(env, headers)
    && forall i: nat {:trigger Handles(env, blocks, trace, i)} :: i < |blocks| ==> Handles(env, blocks, trace, i)
  }

  function Elements(blocks: seq<SignedBlock>): set<SignedBlock> {
    set sb | sb in blocks
  }

  lemma OneMoreElement(blocks: seq<SignedBlock>, k: nat)
    requires k < |blocks|
    ensures Elements(blocks[..k + 1]) == Elements(blocks[..k]) + {blocks[k]}
  {
    assert blocks[..k + 1] == blocks[..k] + [blocks[k]];
  }

  lemma DeliveryGrows(env: Env, headers: map<Root, Header>, blocks: seq<SignedBlock>, trace: seq<Moment>,
                      sb: SignedBlock, m: Moment)
    requires IsDelivery(env, headers, blocks, trace) && Event(env, trace[|blocks|], sb, m)
    ensures IsDelivery(env, headers, blocks + [sb], trace + [m])
  {
    forall i: nat | i < |blocks| + 1 ensures Handles(env, blocks + [sb], trace + [m], i) {
      if i < |blocks| {
        assert Handles(env, blocks, trace, i);
      }
    }
  }

  // What a server remembers

  /** Stored blocks were received; an accepted received block is stored; and a stored block whose parent is
      an anchor is an accepted one, since such a block never has to wait. */
  ghost predicate Tracks(env: Env, m: Moment, received: set<SignedBlock>) {
    && (forall r :: r in m.chain.signed ==> r in m.session && m.chain.signed[r] in received)
    && (forall sb :: sb in received && env.accepts(sb) ==>
        RootOf(env, sb) in m.chain.signed || RootOf(env, sb) in env.anchors)
    && (forall r :: r in m.chain.signed && m.chain.signed[r].block.parentRoot in env.anchors ==>
        env.accepts(m.chain.signed[r]))
  }

  ghost function Tracked(env: Env, received: set<SignedBlock>): iset<Moment> {
    iset m: Moment | Calm(env, m) && Tracks(env, m, received)
  }

  lemma StartTracks(env: Env, headers: map<Root, Header>)
    requires Startable(env, headers)
    ensures Start(env, headers) in Tracked(env, {})
  {
  }

  lemma EventTracks(env: Env, m: Moment, received: set<SignedBlock>, sb: SignedBlock, m': Moment)
    requires m in Tracked(env, received) && Event(env, m, sb, m')
    ensures m' in Tracked(env, received + {sb})
  {
  }

  lemma {:induction false} DeliveryTracks(env: Env, headers: map<Root, Header>, blocks: seq<SignedBlock>,
                                          trace: seq<Moment>, k: nat)
    requires Startable(env, headers) && IsDelivery(env, headers, blocks, trace) && k < |trace|
    ensures trace[k] in Tracked(env, Elements(blocks[..k]))
  {
    if k == 0 {
      StartTracks(env, headers);
    } else {
      DeliveryTracks(env, headers, blocks, trace, k - 1);
      assert Handles(env, blocks, trace, k - 1);
      EventTracks(env, trace[k - 1], Elements(blocks[..k - 1]), blocks[k - 1], trace[k]);
      OneMoreElement(blocks, k - 1);
    }
  }

  lemma {:induction false} StatesGrow(env: Env, headers: map<Root, Header>, blocks: seq<SignedBlock>,
                                      trace: seq<Moment>, i: nat, j: nat)
    requires IsDelivery(env, headers, blocks, trace) && i <= j < |trace|
    ensures trace[i].chain.states <= trace[j].chain.states
    decreases j
  {
    if i < j {
      StatesGrow(env, headers, blocks, trace, i, j - 1);
      assert Handles(env, blocks, trace, j - 1);
    }
  }

  // Which states come out

  /** `r` is connected to an anchor by accepted received blocks. */
  ghost predicate Derivable(env: Env, received: set<SignedBlock>, r: Root)
    decreases env.depth(r)
  {
    || r in env.anchors
    || exists sb :: sb in received && RootOf(env, sb) == r && env.accepts(sb) &&
                    env.depth(sb.block.parentRoot) < env.depth(r) && Derivable(env, received, sb.block.parentRoot)
  }

  /** `sb` is a bad copy of a block that could be imported but may have to wait: while it waits, `sb` can
      take the place of a good copy. */
  ghost predicate Displaces(env: Env, received: set<SignedBlock>, sb: SignedBlock) {
    && sb in received && !env.accepts(sb)
    && RootOf(env, sb) !in env.anchors && sb.block.parentRoot !in env.anchors
    && Derivable(env, received, RootOf(env, sb))
  }

  ghost predicate Uncontested(env: Env, received: set<SignedBlock>) {
    forall sb :: !Displaces(env, received, sb)
  }

  /** If no block is contested, the states are exactly the anchors and the accepted blocks with an unbroken
      accepted ancestry. */
  lemma {:induction false} StatesAreDerivable(env: Env, m: Moment, received: set<SignedBlock>, r: Root)
    requires m in Tracked(env, received) && Uncontested(env, received)
    ensures r in m.chain.states <==> Derivable(env, received, r)
    decreases env.depth(r)
  {
    var c := m.chain;
    if r in c.states && r !in env.anchors {
      var sb := c.signed[r];
      assert RootOf(env, sb) == r;
      assert env.depth(HeaderOf(env.H, sb.block).parentRoot) < env.depth(r);
      StatesAreDerivable(env, m, received, sb.block.parentRoot);
    }
    if r !in env.anchors && Derivable(env, received, r) {
      var sb :| sb in received && RootOf(env, sb) == r && env.accepts(sb) &&
                env.depth(sb.block.parentRoot) < env.depth(r) && Derivable(env, received, sb.block.parentRoot);
      assert RootOf(env, c.signed[r]) == r;
      assert !Displaces(env, received, c.signed[r]);
      StatesAreDerivable(env, m, received, sb.block.parentRoot);
      ImportedIffAccepted(env, c, m.session, r);
    }
  }

  lemma DeliveryOutcome(env: Env, headers: map<Root, Header>, blocks: seq<SignedBlock>, trace: seq<Moment>)
    requires Startable(env, headers) && IsDelivery(env, headers, blocks, trace) && Uncontested(env, Elements(blocks))
    ensures forall r :: r in trace[|blocks|].chain.states <==> Derivable(env, Elements(blocks), r)
  {
    DeliveryTracks(env, headers, blocks, trace, |blocks|);
    assert blocks[..|blocks|] == blocks;
    forall r ensures r in trace[|blocks|].chain.states <==> Derivable(env, Elements(blocks), r) {
      StatesAreDerivable(env, trace[|blocks|], Elements(blocks), r);
    }
  }

  // An order in which a block is imported: its ancestors first

  /** Accepted received blocks, each the child of the one before, the first the child of an anchor. */
  ghost predicate IsLine(env: Env, received: set<SignedBlock>, line: seq<SignedBlock>) {
    && line != [] && line[0].block.parentRoot in env.anchors
    && (forall i :: 0 <= i < |line| ==> line[i] in received && env.accepts(line[i]))
    && (forall i, j :: 0 <= i && j == i + 1 < |line| ==> line[j].block.parentRoot == RootOf(env, line[i]))
  }

  lemma {:induction false} LineTo(env: Env, received: set<SignedBlock>, r: Root) returns (line: seq<SignedBlock>)
    requires Derivable(env, received, r) && r !in env.anchors
    ensures IsLine(env, received, line) && RootOf(env, line[|line| - 1]) == r
    decreases env.depth(r)
  {
    var sb :| sb in received && RootOf(env, sb) == r && env.accepts(sb) &&
              env.depth(sb.block.parentRoot) < env.depth(r) && Derivable(env, received, sb.block.parentRoot);
    if sb.block.parentRoot in env.anchors {
      line := [sb];
    } else {
      line := LineTo(env, received, sb.block.parentRoot);
      line := line + [sb];
    }
  }

  lemma {:induction false} LineDeepens(env: Env, received: set<SignedBlock>, line: seq<SignedBlock>, i: nat, j: nat)
    requires Lawful(env) && IsLine(env, received, line) && i < j < |line|
    ensures env.depth(RootOf(env, line[i])) < env.depth(RootOf(env, line[j]))
    decreases j
  {
    var h := HeaderOf(env.H, line[j].block);
    assert env.depth(h.parentRoot) < env.depth(env.H.header(h));
    assert line[j].block.parentRoot == RootOf(env, line[j - 1]);
    if i < j - 1 {
      LineDeepens(env, received, line, i, j - 1);
    }
  }

  lemma OrderAfter(received: set<SignedBlock>, first: seq<SignedBlock>) returns (order: seq<SignedBlock>)
    requires (forall i :: 0 <= i < |first| ==> first[i] in received)
    requires forall i, j :: 0 <= i < j < |first| ==> first[i] != first[j]
    ensures IsOrder(received, order) && first <= order
  {
    var rest := HasOrder(received - Elements(first));
    order := first + rest;
    assert forall i :: 0 <= i < |rest| ==> rest[i] in rest;
  }

  lemma {:induction false} LineImports(env: Env, headers: map<Root, Header>, received: set<SignedBlock>,
                                       line: seq<SignedBlock>,
                                       blocks: seq<SignedBlock>, trace: seq<Moment>, k: nat)
    requires Startable(env, headers) && IsDelivery(env, headers, blocks, trace)
    requires IsLine(env, received, line) && line <= blocks && k < |line|
    ensures RootOf(env, line[k]) in trace[k + 1].chain.states
  {
    if k > 0 {
      LineImports(env, headers, received, line, blocks, trace, k - 1);
      assert line[k].block.parentRoot == RootOf(env, line[k - 1]);
    }
    assert Handles(env, blocks, trace, k);
  }

  // An order in which it is lost: the good copies, a bad copy, the rest

  /** Only copies of `r` were received. */
  ghost predicate OnlyCopies(env: Env, blocks: seq<SignedBlock>, r: Root) {
    forall i :: 0 <= i < |blocks| ==> RootOf(env, blocks[i]) == r
  }

  lemma CopiesWait(env: Env, headers: map<Root, Header>, blocks: seq<SignedBlock>, trace: seq<Moment>, k: nat,
                   sb: SignedBlock)
    requires Startable(env, headers) && IsDelivery(env, headers, blocks, trace) && k < |trace|
    requires OnlyCopies(env, blocks[..k], RootOf(env, sb)) && sb.block.parentRoot !in env.anchors
    ensures sb.block.parentRoot !in trace[k].chain.states
  {
    DeliveryTracks(env, headers, blocks, trace, k);
    var p, h := sb.block.parentRoot, HeaderOf(env.H, sb.block);
    assert env.depth(h.parentRoot) < env.depth(env.H.header(h));
    forall x | x in trace[k].chain.signed ensures x == RootOf(env, sb) {
      assert RootOf(env, trace[k].chain.signed[x]) == x;
    }
  }

  ghost predicate BadCopyStored(env: Env, m: Moment, r: Root) {
    r in m.chain.signed && !env.accepts(m.chain.signed[r])
  }

  lemma BadCopyStep(env: Env, m: Moment, sb: SignedBlock, m': Moment, r: Root)
    requires BadCopyStored(env, m, r) && (RootOf(env, sb) == r ==> !env.accepts(sb))
    requires m'.chain.signed == SignedAfter(env, m.chain, sb)
    ensures BadCopyStored(env, m', r)
  {
  }

  lemma {:induction false} BadCopyStays(env: Env, headers: map<Root, Header>, blocks: seq<SignedBlock>,
                                        trace: seq<Moment>,
                                        from: nat, k: nat, r: Root)
    requires IsDelivery(env, headers, blocks, trace) && from <= k < |trace|
    requires BadCopyStored(env, trace[from], r)
    requires forall i :: from <= i < |blocks| && RootOf(env, blocks[i]) == r ==> !env.accepts(blocks[i])
    ensures BadCopyStored(env, trace[k], r)
    decreases k
  {
    if from < k {
      BadCopyStays(env, headers, blocks, trace, from, k - 1, r);
      assert Handles(env, blocks, trace, k - 1);
      BadCopyStep(env, trace[k - 1], blocks[k - 1], trace[k], r);
    }
  }

  ghost function GoodCopies(env: Env, received: set<SignedBlock>, r: Root): set<SignedBlock> {
    set sb | sb in received && RootOf(env, sb) == r && env.accepts(sb)
  }

  lemma GoodThenBad(env: Env, received: set<SignedBlock>, bad: SignedBlock) returns (q: seq<SignedBlock>)
    requires bad in received && !env.accepts(bad)
    ensures IsOrder(received, q)
    ensures exists goods :: goods + [bad] <= q && OnlyCopies(env, goods, RootOf(env, bad))
              && forall i :: |goods| < i < |q| && RootOf(env, q[i]) == RootOf(env, bad) ==> !env.accepts(q[i])
  {
    var goods := HasOrder(GoodCopies(env, received, RootOf(env, bad)));
    forall i | 0 <= i < |goods| ensures goods[i] in GoodCopies(env, received, RootOf(env, bad)) {
      assert goods[i] in goods;
    }
    q := OrderAfter(received, goods + [bad]);
    assert (goods + [bad])[|goods|] == bad;
    forall i | |goods| < i < |q| && RootOf(env, q[i]) == RootOf(env, bad) ensures !env.accepts(q[i]) {
      assert q[i] in q;
      assert q[i] !in goods by {
        forall j | 0 <= j < |goods| ensures goods[j] != q[i] {
          assert (goods + [bad])[j] == q[j];
        }
      }
    }
  }

  /** However a server handles the good copies, then a bad copy, then the rest, the block has no state. */
  lemma BadCopyWins(env: Env, headers: map<Root, Header>, goods: seq<SignedBlock>, bad: SignedBlock,
                    blocks: seq<SignedBlock>, trace: seq<Moment>)
    requires Startable(env, headers) && IsDelivery(env, headers, blocks, trace) && goods + [bad] <= blocks
    requires OnlyCopies(env, goods, RootOf(env, bad)) && !env.accepts(bad)
    requires RootOf(env, bad) !in env.anchors && bad.block.parentRoot !in env.anchors
    requires forall i :: |goods| < i < |blocks| && RootOf(env, blocks[i]) == RootOf(env, bad) ==>
              !env.accepts(blocks[i])
    ensures RootOf(env, bad) !in trace[|blocks|].chain.states
  {
    var k := |goods|;
    assert (goods + [bad])[k] == bad && (goods + [bad])[..k] == goods;
    assert blocks[..k] == goods && blocks[k] == bad;
    CopiesWait(env, headers, blocks, trace, k, bad);
    assert Handles(env, blocks, trace, k);
    BadCopyStays(env, headers, blocks, trace, k + 1, |blocks|, RootOf(env, bad));
    DeliveryTracks(env, headers, blocks, trace, |blocks|);
  }

  // When nothing is asked for

  /** A stored copy that was tried and refused: its parent's state is there. */
  ghost predicate Rejected(env: Env, c: Chain, y: Root) {
    y in c.signed && y !in c.states && c.signed[y].block.parentRoot in c.states && !env.accepts(c.signed[y])
  }

  ghost predicate RejectedOnPath(env: Env, c: Chain, r: Root) {
    exists y :: Rejected(env, c, y) && (y == r || Ancestor(env, c.headers, y, r))
  }

  lemma {:induction false} FindRejected(env: Env, m: Moment, received: set<SignedBlock>, r: Root, x: Root)
    requires m in Tracked(env, received) && r in m.chain.signed && r !in m.chain.states
    requires Triable(m.chain.headers, m.chain.states, x) && (x == r || Ancestor(env, m.chain.headers, x, r))
    ensures RejectedOnPath(env, m.chain, r)
    decreases env.depth(r)
  {
    var c, p := m.chain, m.chain.signed[r].block.parentRoot;
    assert c.headers[r].parentRoot == p;
    if p in c.states {
      ImportedIffAccepted(env, c, m.session, r);
      assert Rejected(env, c, r);
    } else {
      FindRejected(env, m, received, p, x);
      var y :| Rejected(env, c, y) && (y == p || Ancestor(env, c.headers, y, p));
      assert Ancestor(env, c.headers, y, r);
    }
  }

  lemma RejectedHasNoState(env: Env, m: Moment, y: Root, r: Root)
    requires Calm(env, m) && Rejected(env, m.chain, y) && (y == r || Ancestor(env, m.chain.headers, y, r))
    requires r !in env.anchors
    ensures r !in m.chain.states
  {
    if r in m.chain.states && y != r {
      StatesReachUp(env, m.chain, y, r);
    }
  }

  lemma SilentMeansRejected(env: Env, m: Moment, received: set<SignedBlock>, states: set<Root>, r: Root)
    requires m in Tracked(env, received) && states <= m.chain.states && r in m.chain.signed && r !in m.chain.states
    requires HasTriableAncestor(env, m.chain.headers, states, r)
    ensures RejectedOnPath(env, m.chain, r)
  {
    var x :| Ancestor(env, m.chain.headers, x, r) && Triable(m.chain.headers, states, x);
    FindRejected(env, m, received, r, x);
  }

  lemma RejectedMeansSilent(env: Env, m: Moment, r: Root, parent: Root)
    requires Calm(env, m) && RejectedOnPath(env, m.chain, r) && r !in env.anchors
    requires r in m.chain.signed && m.chain.signed[r].block.parentRoot == parent
    ensures r !in m.chain.states
    ensures parent !in m.chain.states ==> HasTriableAncestor(env, m.chain.headers, m.chain.states, r)
  {
    var c := m.chain;
    var y :| Rejected(env, c, y) && (y == r || Ancestor(env, c.headers, y, r));
    RejectedHasNoState(env, m, y, r);
    assert c.headers[y].parentRoot == c.signed[y].block.parentRoot;
    assert Triable(c.headers, c.states, y);
  }

  /** A block that has to wait ends without a state and without a request exactly when a rejected copy stands on
      its path: every event tries that copy again instead of asking for a better one. */
  lemma SilentIffRejected(env: Env, m: Moment, received: set<SignedBlock>, sb: SignedBlock, requests: seq<Root>,
                          m': Moment)
    requires m in Tracked(env, received) && Event(env, m, sb, m') && Asks(env, m.chain, sb, requests, m'.chain)
    requires sb.block.parentRoot !in m.chain.states && RootOf(env, sb) !in env.anchors
    ensures requests == [] && RootOf(env, sb) !in m'.chain.states <==> RejectedOnPath(env, m'.chain, RootOf(env, sb))
  {
    var r := RootOf(env, sb);
    EventTracks(env, m, received, sb, m');
    if requests == [] && r !in m'.chain.states {
      SilentMeansRejected(env, m', received + {sb}, m.chain.states, r);
    }
    if RejectedOnPath(env, m'.chain, r) {
      RejectedMeansSilent(env, m', r, sb.block.parentRoot);
    }
  }

  /** The smallest case: a bad copy is stored while its parent is missing and refused when the parent comes. As
      long as it stands there, no child of it gets a state or leads to a request. */
  lemma BadCopyIsRejected(env: Env, headers: map<Root, Header>, bad: SignedBlock, parent: SignedBlock,
                          trace: seq<Moment>)
    requires Startable(env, headers) && IsDelivery(env, headers, [bad, parent], trace)
    requires !env.accepts(bad) && env.accepts(parent) && bad.block.parentRoot == RootOf(env, parent)
    requires RootOf(env, bad) !in env.anchors && RootOf(env, parent) !in env.anchors
    requires parent.block.parentRoot in env.anchors
    ensures trace[2] in Tracked(env, {bad, parent}) && Rejected(env, trace[2].chain, RootOf(env, bad))
  {
    BadCopyWins(env, headers, [], bad, [bad, parent], trace);
    DeliveryTracks(env, headers, [bad, parent], trace, 2);
    TwoElements(bad, parent);
    BadCopyWaits(env, headers, bad, parent, trace);
  }

  lemma TwoElements(a: SignedBlock, b: SignedBlock)
    ensures Elements([a, b][..2]) == {a, b}
  {
    assert [a, b][..2] == [a, b];
  }

  lemma BadCopyWaits(env: Env, headers: map<Root, Header>, bad: SignedBlock, parent: SignedBlock, trace: seq<Moment>)
    requires Startable(env, headers) && IsDelivery(env, headers, [bad, parent], trace)
    requires env.accepts(parent) && bad.block.parentRoot == RootOf(env, parent)
    requires RootOf(env, parent) !in env.anchors && parent.block.parentRoot in env.anchors
    ensures trace[2].chain.signed == map[RootOf(env, bad) := bad, RootOf(env, parent) := parent]
    ensures RootOf(env, parent) in trace[2].chain.states
  {
    assert Handles(env, [bad, parent], trace, 0) && Handles(env, [bad, parent], trace, 1);
    StartTracks(env, headers);
    DeliveryTracks(env, headers, [bad, parent], trace, 1);
    var h := HeaderOf(env.H, bad.block);
    assert env.depth(h.parentRoot) < env.depth(env.H.header(h));
    assert parent.block.parentRoot in trace[1].chain.states;
    assert RootOf(env, parent) !in trace[1].chain.states;
  }

  lemma ChildOfRejectedIsSilent(env: Env, m: Moment, received: set<SignedBlock>, sb: SignedBlock, requests: seq<Root>,
                                m': Moment)
    requires m in Tracked(env, received) && Event(env, m, sb, m') && Asks(env, m.chain, sb, requests, m'.chain)
    requires Rejected(env, m.chain, sb.block.parentRoot) && RootOf(env, sb) !in env.anchors
    ensures requests == [] && RootOf(env, sb) !in m'.chain.states
  {
    var y, r, c := sb.block.parentRoot, RootOf(env, sb), m'.chain;
    EventTracks(env, m, received, sb, m');
    var h := HeaderOf(env.H, sb.block);
    assert env.depth(h.parentRoot) < env.depth(env.H.header(h));
    assert c.headers[y].parentRoot == c.signed[y].block.parentRoot && c.headers[r].parentRoot == y;
    ImportedIffAccepted(env, c, m'.session, y);
    assert Rejected(env, c, y) && Ancestor(env, c.headers, y, r);
    SilentIffRejected(env, m, received, sb, requests, m');
  }

  // Every sequence can be delivered

  /** `r` is connected to an anchor by accepted stored blocks. */
  ghost predicate Connected(env: Env, signed: map<Root, SignedBlock>, r: Root)
    decreases env.depth(r)
  {
    || r in env.anchors
    || (r in signed && env.accepts(signed[r]) && env.depth(signed[r].block.parentRoot) < env.depth(r)
        && Connected(env, signed, signed[r].block.parentRoot))
  }

  /** The blocks of `signed` that wait for `p`. */
  function WaitingFor(signed: map<Root, SignedBlock>, p: Root): set<Root> {
    set r | r in signed && signed[r].block.parentRoot == p
  }

  /** A server that has imported all it can of the stored blocks, and registered what has to wait. */
  ghost function Drained(env: Env, headers: map<Root, Header>, signed: map<Root, SignedBlock>): Moment {
    var states := env.anchors + set r | r in signed && Connected(env, signed, r);
    var parents := set r | r in signed :: signed[r].block.parentRoot;
    var pending := map p | p in parents && p !in states :: WaitingFor(signed, p);
    Moment(Chain(headers, signed, states, pending, map[]), signed.Keys)
  }

  lemma DrainedSettles(env: Env, headers: map<Root, Header>, signed: map<Root, SignedBlock>)
    requires forall r :: r in signed ==> env.depth(signed[r].block.parentRoot) < env.depth(r)
    ensures var m := Drained(env, headers, signed);
            Settled(env, m.chain, m.session, []) && StatesSound(env, signed, m.chain.states)
  {
    var m := Drained(env, headers, signed);
    forall r | r in m.session ensures Handled(env, m.chain, [], r) {
      var p := signed[r].block.parentRoot;
      if p in m.chain.states {
        assert env.accepts(signed[r]) ==> Connected(env, signed, r);
      } else {
        assert p in m.chain.pending && r in WaitingFor(signed, p);
      }
    }
    forall r | r in m.chain.states && r !in env.anchors ensures signed[r].block.parentRoot in m.chain.states {
      assert Connected(env, signed, signed[r].block.parentRoot);
    }
  }

  lemma DrainedIsCalm(env: Env, headers: map<Root, Header>, signed: map<Root, SignedBlock>)
    requires Lawful(env) && Stored(env, headers, signed)
    ensures Calm(env, Drained(env, headers, signed))
  {
    var m := Drained(env, headers, signed);
    forall r | r in signed ensures env.depth(signed[r].block.parentRoot) < env.depth(r) {
      assert env.depth(headers[r].parentRoot) < env.depth(env.H.header(headers[r]));
    }
    DrainedSettles(env, headers, signed);
    assert PendingSound(signed, m.chain.pending) && Quiet(m.chain.pending, m.chain.states);
  }

  lemma {:induction false} StatesConnected(env: Env, m: Moment, signed: map<Root, SignedBlock>, r: Root)
    requires Calm(env, m) && r in m.chain.states
    requires forall x :: x in m.chain.states && x !in env.anchors ==> x in signed && signed[x] == m.chain.signed[x]
    ensures Connected(env, signed, r)
    decreases env.depth(r)
  {
    if r !in env.anchors {
      var h := m.chain.headers[r];
      assert env.depth(h.parentRoot) < env.depth(env.H.header(h));
      StatesConnected(env, m, signed, signed[r].block.parentRoot);
    }
  }

  lemma EventHappens(env: Env, m: Moment, sb: SignedBlock) returns (m': Moment)
    requires Calm(env, m) && m.session <= m.chain.signed.Keys
    ensures Event(env, m, sb, m') && m'.session <= m'.chain.signed.Keys
  {
    var c, signed := m.chain, SignedAfter(env, m.chain, sb);
    var headers := if Keeps(env, c, sb) then c.headers[RootOf(env, sb) := HeaderOf(env.H, sb.block)] else c.headers;
    m' := Drained(env, headers, signed);
    DrainedIsCalm(env, headers, signed);
    forall r | r in c.states ensures r in m'.chain.states {
      StatesConnected(env, m, signed, r);
    }
    if env.accepts(sb) && sb.block.parentRoot in c.states && RootOf(env, sb) !in c.states {
      StatesConnected(env, m, signed, sb.block.parentRoot);
      var h := HeaderOf(env.H, sb.block);
      assert env.depth(h.parentRoot) < env.depth(env.H.header(h));
      assert Connected(env, signed, RootOf(env, sb));
    }
  }

  lemma {:induction false} DeliveryHappens(env: Env, headers: map<Root, Header>, blocks: seq<SignedBlock>)
    returns (trace: seq<Moment>)
    requires Startable(env, headers)
    ensures IsDelivery(env, headers, blocks, trace)
    ensures Calm(env, trace[|blocks|]) && trace[|blocks|].session <= trace[|blocks|].chain.signed.Keys
  {
    if blocks == [] {
      trace := [Start(env, headers)];
      StartTracks(env, headers);
    } else {
      var front, sb := blocks[..|blocks| - 1], blocks[|blocks| - 1];
      assert blocks == front + [sb];
      var before := DeliveryHappens(env, headers, front);
      var last := EventHappens(env, before[|front|], sb);
      DeliveryGrows(env, headers, front, before, sb, last);
      trace := before + [last];
    }
  }

  // Exactly when the order matters

  /** A fresh server that receives `blocks` can end with `states`. */
  ghost predicate Leaves(env: Env, headers: map<Root, Header>, blocks: seq<SignedBlock>, states: set<Root>) {
    exists trace: seq<Moment> :: IsDelivery(env, headers, blocks, trace) && trace[|blocks|].chain.states == states
  }

  /** The same blocks leave the same states, whatever the order of arrival. */
  ghost predicate OrderIrrelevant(env: Env, headers: map<Root, Header>, received: set<SignedBlock>) {
    forall p, q, s, t :: IsOrder(received, p) && IsOrder(received, q) &&
                         Leaves(env, headers, p, s) && Leaves(env, headers, q, t)
      ==> s == t
  }

  lemma UncontestedOrder(env: Env, headers: map<Root, Header>, received: set<SignedBlock>)
    requires Startable(env, headers) && Uncontested(env, received)
    ensures OrderIrrelevant(env, headers, received)
  {
    forall p, q, s, t | IsOrder(received, p) && IsOrder(received, q) &&
                        Leaves(env, headers, p, s) && Leaves(env, headers, q, t)
      ensures s == t
    {
      assert Elements(p) == received && Elements(q) == received;
      LeavesDerivable(env, headers, p, s);
      LeavesDerivable(env, headers, q, t);
    }
  }

  lemma LeavesDerivable(env: Env, headers: map<Root, Header>, blocks: seq<SignedBlock>, states: set<Root>)
    requires Startable(env, headers) && Leaves(env, headers, blocks, states) && Uncontested(env, Elements(blocks))
    ensures forall r :: r in states <==> Derivable(env, Elements(blocks), r)
  {
    var trace: seq<Moment> :| IsDelivery(env, headers, blocks, trace) && trace[|blocks|].chain.states == states;
    DeliveryOutcome(env, headers, blocks, trace);
  }

  /** An order after which every server has the state of a contested block. */
  lemma OrderThatImports(env: Env, headers: map<Root, Header>, received: set<SignedBlock>, r: Root)
    returns (p: seq<SignedBlock>)
    requires Startable(env, headers) && Derivable(env, received, r) && r !in env.anchors
    ensures IsOrder(received, p)
    ensures forall s :: Leaves(env, headers, p, s) ==> r in s
  {
    var line := LineTo(env, received, r);
    forall i, j | 0 <= i < j < |line| ensures line[i] != line[j] {
      LineDeepens(env, received, line, i, j);
    }
    p := OrderAfter(received, line);
    forall s | Leaves(env, headers, p, s) ensures r in s {
      var trace: seq<Moment> :| IsDelivery(env, headers, p, trace) && trace[|p|].chain.states == s;
      LineImports(env, headers, received, line, p, trace, |line| - 1);
      StatesGrow(env, headers, p, trace, |line|, |p|);
    }
  }

  /** An order after which no server has it. */
  lemma OrderThatLoses(env: Env, headers: map<Root, Header>, received: set<SignedBlock>, bad: SignedBlock)
    returns (q: seq<SignedBlock>)
    requires Startable(env, headers) && Displaces(env, received, bad)
    ensures IsOrder(received, q)
    ensures forall s :: Leaves(env, headers, q, s) ==> RootOf(env, bad) !in s
  {
    q := GoodThenBad(env, received, bad);
    var goods :| goods + [bad] <= q && OnlyCopies(env, goods, RootOf(env, bad))
                 && forall i :: |goods| < i < |q| && RootOf(env, q[i]) == RootOf(env, bad) ==> !env.accepts(q[i]);
    forall s | Leaves(env, headers, q, s) ensures RootOf(env, bad) !in s {
      var trace: seq<Moment> :| IsDelivery(env, headers, q, trace) && trace[|q|].chain.states == s;
      BadCopyWins(env, headers, goods, bad, q, trace);
    }
  }

  /** The order of arrival is irrelevant exactly when no block is contested. */
  lemma OrderIrrelevantIffUncontested(env: Env, headers: map<Root, Header>, received: set<SignedBlock>)
    requires Startable(env, headers)
    ensures OrderIrrelevant(env, headers, received) <==> Uncontested(env, received)
  {
    if Uncontested(env, received) {
      UncontestedOrder(env, headers, received);
    } else {
      var bad :| Displaces(env, received, bad);
      var p := OrderThatImports(env, headers, received, RootOf(env, bad));
      var q := OrderThatLoses(env, headers, received, bad);
      var t := DeliveryHappens(env, headers, p);
      var u := DeliveryHappens(env, headers, q);
      assert Leaves(env, headers, p, t[|p|].chain.states) && Leaves(env, headers, q, u[|q|].chain.states);
    }
  }

  /** The smallest case: a good copy, then a badly signed one, then the parent. The block is lost; with the two
      copies the other way round it is imported. */
  lemma BadCopyLosesBlock(env: Env, headers: map<Root, Header>, good: SignedBlock, bad: SignedBlock,
                          parent: SignedBlock,
                          lost: set<Root>, kept: set<Root>)
    requires Startable(env, headers) && env.accepts(good) && !env.accepts(bad) && env.accepts(parent)
    requires RootOf(env, good) == RootOf(env, bad) && good.block.parentRoot == RootOf(env, parent) != RootOf(env, good)
    requires RootOf(env, good) !in env.anchors && RootOf(env, parent) !in env.anchors
    requires parent.block.parentRoot in env.anchors
    requires Leaves(env, headers, [good, bad, parent], lost) && Leaves(env, headers, [bad, good, parent], kept)
    ensures RootOf(env, good) !in lost && RootOf(env, good) in kept
  {
    assert HeaderOf(env.H, good.block) == HeaderOf(env.H, bad.block);
    var t: seq<Moment> :| IsDelivery(env, headers, [good, bad, parent], t) && t[3].chain.states == lost;
    BadCopyWins(env, headers, [good], bad, [good, bad, parent], t);
    var u: seq<Moment> :| IsDelivery(env, headers, [bad, good, parent], u) && u[3].chain.states == kept;
    assert [bad, good, parent][..1] == [bad];
    CopiesWait(env, headers, [bad, good, parent], u, 1, good);
    DeliveryTracks(env, headers, [bad, good, parent], u, 3);
    StatesGrow(env, headers, [bad, good, parent], u, 0, 2);
    assert Handles(env, [bad, good, parent], u, 1) && Handles(env, [bad, good, parent], u, 2);
    assert parent.block.parentRoot in u[2].chain.states;
    ImportedIffAccepted(env, u[3].chain, u[3].session, RootOf(env, good));
  }
}
