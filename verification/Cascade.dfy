/** Blocks that arrive before their parents: the pending indices and the work queue that drains them. */
module Cascade {
  import opened Types

  datatype SignedBlock = SignedBlock(block: Block, signatures: nat)

  /** What the server runs in. `accepts` is the outcome of importing a block whose parent state is stored;
      `anchors` are the roots whose state was there from the start; `depth` witnesses that no chain of
      parent roots is circular. */
  datatype Env = Env(H: Hasher, accepts: SignedBlock -> bool, anchors: set<Root>, depth: Root -> nat)

  ghost predicate Lawful(env: Env) {
    CollisionFree(env.H) && forall h: Header :: env.depth(h.parentRoot) < env.depth(env.H.header(h))
  }

  function RootOf(env: Env, sb: SignedBlock): Root { BlockRoot(env.H, sb.block) }

  /** The stored blocks, the states, and the two in-memory indices. */
  datatype Chain = Chain(
    headers: map<Root, Header>,
    signed: map<Root, SignedBlock>,
    states: set<Root>,
    pending: map<Root, set<Root>>,
    missing: map<Root, Root>)

  ghost predicate Stored(env: Env, headers: map<Root, Header>, signed: map<Root, SignedBlock>) {
    && (forall r :: r in headers ==> env.H.header(headers[r]) == r)
    && (forall r :: r in signed ==> r in headers && HeaderOf(env.H, signed[r].block) == headers[r])
    && (forall r :: r in headers ==> r in signed || r in env.anchors)
  }

  /** `a` is a proper ancestor of `x` by stored headers, with no anchor in between; each step goes to a
      shallower root. */
  ghost predicate Ancestor(env: Env, headers: map<Root, Header>, a: Root, x: Root)
    decreases env.depth(x)
  {
    && x in headers && env.depth(headers[x].parentRoot) < env.depth(x)
    && var p := headers[x].parentRoot;
       p == a || (p !in env.anchors && Ancestor(env, headers, a, p))
  }

  lemma {:induction false} AncestorIsShallower(env: Env, headers: map<Root, Header>, a: Root, x: Root)
    requires Ancestor(env, headers, a, x)
    ensures env.depth(a) < env.depth(x)
    decreases env.depth(x)
  {
    if headers[x].parentRoot != a {
      AncestorIsShallower(env, headers, a, headers[x].parentRoot);
    }
  }

  lemma {:induction false} AncestorChains(env: Env, headers: map<Root, Header>, a: Root, b: Root, x: Root)
    requires Ancestor(env, headers, a, b) && Ancestor(env, headers, b, x) && b !in env.anchors
    ensures Ancestor(env, headers, a, x)
    decreases env.depth(x)
  {
    if headers[x].parentRoot != b {
      AncestorChains(env, headers, a, b, headers[x].parentRoot);
    }
  }

  lemma {:induction false} AncestorKept(env: Env, headers: map<Root, Header>, more: map<Root, Header>, a: Root, x: Root)
    requires Lawful(env) && (forall r :: r in headers ==> env.H.header(headers[r]) == r)
    requires forall r :: r in more ==> env.H.header(more[r]) == r
    requires headers.Keys <= more.Keys
    requires Ancestor(env, headers, a, x)
    ensures Ancestor(env, more, a, x)
    decreases env.depth(x)
  {
    assert env.H.header(headers[x]) == env.H.header(more[x]);
    if headers[x].parentRoot != a {
      AncestorKept(env, headers, more, a, headers[x].parentRoot);
    }
  }

  /** Ancestors of one root lie on one line. */
  lemma {:induction false} AncestorsLinear(env: Env, headers: map<Root, Header>, a: Root, b: Root, x: Root)
    requires Ancestor(env, headers, a, x) && Ancestor(env, headers, b, x)
    ensures a == b || Ancestor(env, headers, a, b) || Ancestor(env, headers, b, a)
    decreases env.depth(x)
  {
    var p := headers[x].parentRoot;
    if p != a && p != b {
      AncestorsLinear(env, headers, a, b, p);
    }
  }

  ghost predicate StatesSound(env: Env, signed: map<Root, SignedBlock>, states: set<Root>) {
    && env.anchors <= states
    && forall r :: r in states && r !in env.anchors ==>
         r in signed && signed[r].block.parentRoot in states && env.accepts(signed[r])
  }

  ghost predicate Registered(c: Chain, r: Root) {
    r in c.signed && c.signed[r].block.parentRoot in c.pending && r in c.pending[c.signed[r].block.parentRoot]
  }

  ghost predicate PendingSound(signed: map<Root, SignedBlock>, pending: map<Root, set<Root>>) {
    forall p, r :: p in pending && r in pending[p] ==> r in signed && signed[r].block.parentRoot == p
  }

  ghost predicate MissingSound(env: Env, headers: map<Root, Header>, missing: map<Root, Root>) {
    forall x :: x in missing ==> missing[x] !in env.anchors && Ancestor(env, headers, missing[x], x)
  }

  /** No block waits for a parent whose state is there. */
  ghost predicate Quiet(pending: map<Root, set<Root>>, states: set<Root>) {
    forall p :: p in pending ==> p !in states
  }

  ghost predicate Sound(env: Env, c: Chain) {
    && Lawful(env) && Stored(env, c.headers, c.signed) && StatesSound(env, c.signed, c.states)
    && PendingSound(c.signed, c.pending) && MissingSound(env, c.headers, c.missing) && Quiet(c.pending, c.states)
  }

  ghost predicate Queued(env: Env, c: Chain, queue: seq<SignedBlock>, r: Root) {
    r in c.signed && c.signed[r] in queue
  }

  /** The stored block `r` is imported, waiting, rejected or queued. */
  ghost predicate Handled(env: Env, c: Chain, queue: seq<SignedBlock>, r: Root) {
    r in c.signed && (r in c.states || Registered(c, r) || !env.accepts(c.signed[r]) || Queued(env, c, queue, r))
  }

  ghost predicate Settled(env: Env, c: Chain, session: set<Root>, queue: seq<SignedBlock>) {
    forall r {:trigger Handled(env, c, queue, r)} :: r in session ==> Handled(env, c, queue, r)
  }

  ghost predicate Ready(env: Env, c: Chain, queue: seq<SignedBlock>) {
    forall q :: q in queue ==>
      RootOf(env, q) in c.signed && c.signed[RootOf(env, q)] == q && q.block.parentRoot in c.states
  }

  ghost function Waiting(c: Chain): set<Root> {
    set r | r in c.signed && Registered(c, r)
  }

  function WithSigned(env: Env, c: Chain, sb: SignedBlock): Chain {
    var root := RootOf(env, sb);
    c.(headers := c.headers[root := HeaderOf(env.H, sb.block)], signed := c.signed[root := sb])
  }

  /** Whether a received block is written to the store: while its parent's state is missing, or on import. */
  predicate Keeps(env: Env, c: Chain, sb: SignedBlock) {
    sb.block.parentRoot !in c.states || (env.accepts(sb) && RootOf(env, sb) !in c.states)
  }

  /** The stored blocks after an event; a copy with the same root overwrites. */
  function SignedAfter(env: Env, c: Chain, sb: SignedBlock): map<Root, SignedBlock> {
    if Keeps(env, c, sb) then c.signed[RootOf(env, sb) := sb] else c.signed
  }

  function HeadersAfter(env: Env, c: Chain, sb: SignedBlock): map<Root, Header> {
    if Keeps(env, c, sb) then c.headers[RootOf(env, sb) := HeaderOf(env.H, sb.block)] else c.headers
  }

  function Register(c: Chain, parent: Root, r: Root): Chain {
    c.(pending := WithPending(c.pending, parent, r))
  }

  // Steps on the stored value

  lemma SignedKeepsMissing(env: Env, c: Chain, sb: SignedBlock)
    requires Lawful(env) && Stored(env, c.headers, c.signed) && MissingSound(env, c.headers, c.missing)
    ensures var d := WithSigned(env, c, sb); Stored(env, d.headers, d.signed) && MissingSound(env, d.headers, d.missing)
  {
    var d := WithSigned(env, c, sb);
    forall x | x in d.missing ensures d.missing[x] !in env.anchors && Ancestor(env, d.headers, d.missing[x], x) {
      AncestorKept(env, c.headers, d.headers, c.missing[x], x);
    }
  }

  lemma SameParent(env: Env, c: Chain, sb: SignedBlock)
    requires Lawful(env) && Stored(env, c.headers, c.signed) && RootOf(env, sb) in c.signed
    ensures c.signed[RootOf(env, sb)].block.parentRoot == sb.block.parentRoot
  {
  }

  /** Importing an accepted block whose parent state is there. */
  lemma ImportSound(env: Env, c: Chain, sb: SignedBlock)
    requires Sound(env, c) && sb.block.parentRoot in c.states && env.accepts(sb)
    ensures var root := RootOf(env, sb);
            var d := WithSigned(env, c, sb).(states := c.states + {root}, pending := c.pending - {root});
            Sound(env, d)
  {
    var root := RootOf(env, sb);
    var d := WithSigned(env, c, sb).(states := c.states + {root}, pending := c.pending - {root});
    SignedKeepsMissing(env, c, sb);
    if root in c.signed { SameParent(env, c, sb); }
  }

  lemma StoreSound(env: Env, c: Chain, sb: SignedBlock)
    requires Sound(env, c) && sb.block.parentRoot !in c.states
    ensures Sound(env, WithSigned(env, c, sb))
  {
    SignedKeepsMissing(env, c, sb);
    if RootOf(env, sb) in c.signed { SameParent(env, c, sb); }
  }

  lemma MissingEntrySound(env: Env, c: Chain, r: Root, ancestor: Root)
    requires Sound(env, c) && ancestor !in env.anchors && Ancestor(env, c.headers, ancestor, r)
    ensures Sound(env, c.(missing := c.missing[r := ancestor]))
  {
  }

  function WithPending(pending: map<Root, set<Root>>, parent: Root, r: Root): map<Root, set<Root>> {
    pending[parent := (if parent in pending then pending[parent] else {}) + {r}]
  }

  lemma PendingGrows(signed: map<Root, SignedBlock>, pending: map<Root, set<Root>>, states: set<Root>, r: Root)
    requires PendingSound(signed, pending) && Quiet(pending, states)
    requires r in signed && signed[r].block.parentRoot !in states
    ensures var more := WithPending(pending, signed[r].block.parentRoot, r);
            PendingSound(signed, more) && Quiet(more, states)
  {
    var p := signed[r].block.parentRoot;
    var more := WithPending(pending, p, r);
    forall q, x | q in more && x in more[q] ensures x in signed && signed[x].block.parentRoot == q {
      if q == p && x != r {
        assert x in pending[p];
      }
    }
  }

  lemma RegistrationSound(env: Env, c: Chain, r: Root)
    requires Sound(env, c) && r in c.signed && c.signed[r].block.parentRoot !in c.states
    ensures Sound(env, Register(c, c.signed[r].block.parentRoot, r))
  {
    PendingGrows(c.signed, c.pending, c.states, r);
  }

  /** A block stored as pending under its parent, with the ancestor it waits for. */
  lemma PendSound(env: Env, c: Chain, sb: SignedBlock, ancestor: Root)
    requires Sound(env, c) && sb.block.parentRoot !in c.states
    requires ancestor !in env.anchors && Ancestor(env, WithSigned(env, c, sb).headers, ancestor, RootOf(env, sb))
    ensures Sound(env, Pend(env, c, sb, ancestor))
  {
    var d := WithSigned(env, c, sb);
    StoreSound(env, c, sb);
    MissingEntrySound(env, d, RootOf(env, sb), ancestor);
    RegistrationSound(env, d.(missing := d.missing[RootOf(env, sb) := ancestor]), RootOf(env, sb));
  }

  function Pend(env: Env, c: Chain, sb: SignedBlock, ancestor: Root): Chain {
    var root := RootOf(env, sb);
    Register(WithSigned(env, c, sb).(missing := c.missing[root := ancestor]), sb.block.parentRoot, root)
  }

  /** A stored block whose parent state is not there, registered while walking up. */
  lemma RegisterSound(env: Env, c: Chain, r: Root)
    requires Sound(env, c) && r in c.signed && c.signed[r].block.parentRoot !in c.states
    ensures var p := c.signed[r].block.parentRoot;
            Sound(env, Register(c, p, r).(missing := c.missing[r := p]))
  {
    var p := c.signed[r].block.parentRoot;
    assert Ancestor(env, c.headers, p, r);
    MissingEntrySound(env, c, r, p);
    RegistrationSound(env, c.(missing := c.missing[r := p]), r);
  }

  /** Importing a block and taking its waiting children off the index. */
  function Import(env: Env, c: Chain, sb: SignedBlock): Chain {
    var root := RootOf(env, sb);
    WithSigned(env, c, sb).(states := c.states + {root})
  }

  function Children(c: Chain, r: Root): set<Root> {
    if r in c.pending then c.pending[r] else {}
  }

  function Collect(c: Chain, r: Root): Chain {
    c.(pending := c.pending - {r}, missing := c.missing - Children(c, r))
  }

  /** `longer` is `queue` followed by the stored blocks of `kids`, in some order. */
  ghost predicate Appended(signed: map<Root, SignedBlock>, kids: set<Root>, queue: seq<SignedBlock>,
                           longer: seq<SignedBlock>) {
    && |longer| == |queue| + |kids|
    && (forall q :: q in queue ==> q in longer)
    && (forall x :: x in kids ==> x in signed && signed[x] in longer)
    && (forall q :: q in longer ==> q in queue || FromKids(signed, kids, q))
  }

  ghost predicate FromKids(signed: map<Root, SignedBlock>, kids: set<Root>, q: SignedBlock) {
    exists x :: x in kids && x in signed && signed[x] == q
  }

  lemma AppendOne(signed: map<Root, SignedBlock>, kids: set<Root>, x: Root, queue: seq<SignedBlock>,
                  longer: seq<SignedBlock>)
    requires Appended(signed, kids, queue, longer) && x !in kids && x in signed
    ensures Appended(signed, kids + {x}, queue, longer + [signed[x]])
  {
  }

  lemma ImportCollectSound(env: Env, c: Chain, sb: SignedBlock)
    requires Sound(env, c) && sb.block.parentRoot in c.states
    requires RootOf(env, sb) in c.states || env.accepts(sb)
    ensures var d := if RootOf(env, sb) in c.states then c else Import(env, c, sb);
            Sound(env, Collect(d, RootOf(env, sb)))
  {
    if RootOf(env, sb) !in c.states {
      ImportSound(env, c, sb);
    }
  }

  lemma ImportReady(env: Env, c: Chain, sb: SignedBlock, rest: seq<SignedBlock>, queue: seq<SignedBlock>)
    requires Sound(env, c) && Ready(env, c, rest)
    requires rest == [] || Ready(env, c, [sb])
    requires Appended(Import(env, c, sb).signed, Children(c, RootOf(env, sb)), rest, queue)
    ensures Ready(env, Collect(Import(env, c, sb), RootOf(env, sb)), queue)
  {
    var root := RootOf(env, sb);
    var i := Import(env, c, sb);
    var d := Collect(i, root);
    SignedKeepsMissing(env, c, sb);
    forall q | q in queue
      ensures RootOf(env, q) in d.signed && d.signed[RootOf(env, q)] == q && q.block.parentRoot in d.states
    {
      if q in rest {
        assert c.signed[RootOf(env, q)] == q;
        assert sb in [sb];
      } else {
        var x :| x in Children(c, root) && x in i.signed && i.signed[x] == q;
        assert RootOf(env, q) == x;
        ChildHasParent(env, c, sb, x);
      }
    }
  }

  lemma ChildHasParent(env: Env, c: Chain, sb: SignedBlock, x: Root)
    requires Sound(env, c) && x in Children(c, RootOf(env, sb))
    ensures x in c.signed && Import(env, c, sb).signed[x].block.parentRoot == RootOf(env, sb)
  {
  }

  lemma ImportHandles(env: Env, c: Chain, sb: SignedBlock, rest: seq<SignedBlock>, queue: seq<SignedBlock>, r: Root)
    requires Sound(env, c) && r != RootOf(env, sb) && Handled(env, c, [sb] + rest, r)
    requires Appended(Import(env, c, sb).signed, Children(c, RootOf(env, sb)), rest, queue)
    ensures Handled(env, Collect(Import(env, c, sb), RootOf(env, sb)), queue, r)
  {
  }

  lemma ImportSettles(env: Env, c: Chain, session: set<Root>, sb: SignedBlock, rest: seq<SignedBlock>,
                      queue: seq<SignedBlock>)
    requires Sound(env, c) && Settled(env, c, session, [sb] + rest)
    requires Appended(Import(env, c, sb).signed, Children(c, RootOf(env, sb)), rest, queue)
    ensures Settled(env, Collect(Import(env, c, sb), RootOf(env, sb)), session + {RootOf(env, sb)}, queue)
  {
    var root := RootOf(env, sb);
    var d := Collect(Import(env, c, sb), root);
    forall r | r in session + {root} ensures Handled(env, d, queue, r) {
      if r != root {
        assert Handled(env, c, [sb] + rest, r);
        ImportHandles(env, c, sb, rest, queue, r);
      }
    }
  }

  lemma RejectSettles(env: Env, c: Chain, session: set<Root>, sb: SignedBlock, rest: seq<SignedBlock>)
    requires Settled(env, c, session, [sb] + rest)
    requires !env.accepts(sb) || RootOf(env, sb) in c.states
    requires Lawful(env) && Stored(env, c.headers, c.signed)
    ensures Settled(env, c, session, rest)
  {
    forall r | r in session ensures Handled(env, c, rest, r) {
      assert Handled(env, c, [sb] + rest, r);
      assert RootOf(env, c.signed[r]) == r;
    }
  }

  /** Collecting moves registrations to the queue one for one. */
  lemma CollectCounts(env: Env, c: Chain, sb: SignedBlock)
    requires Sound(env, c) && sb.block.parentRoot in c.states
    ensures var d := Collect(Import(env, c, sb), RootOf(env, sb));
            |Waiting(d)| + |Children(c, RootOf(env, sb))| == |Waiting(c)|
  {
    var kids := Children(c, RootOf(env, sb));
    var d := Collect(Import(env, c, sb), RootOf(env, sb));
    assert forall x :: x in Waiting(d) <==> x in Waiting(c) && x !in kids by {
      forall x ensures Registered(d, x) <==> Registered(c, x) && x !in kids {
        WaitingAfterCollect(env, c, sb, x);
      }
    }
    ChildrenWait(env, c, RootOf(env, sb));
    SplitSize(Waiting(c), kids, Waiting(d));
  }

  lemma ChildrenWait(env: Env, c: Chain, p: Root)
    requires Sound(env, c)
    ensures Children(c, p) <= Waiting(c)
  {
  }

  lemma SplitSize(all: set<Root>, part: set<Root>, rest: set<Root>)
    requires part <= all && forall x :: x in rest <==> x in all && x !in part
    ensures |all| == |part| + |rest|
  {
    assert all == part + rest;
  }

  lemma WaitingAfterCollect(env: Env, c: Chain, sb: SignedBlock, x: Root)
    requires Sound(env, c) && sb.block.parentRoot in c.states
    ensures Registered(Collect(Import(env, c, sb), RootOf(env, sb)), x)
       <==> Registered(c, x) && x !in Children(c, RootOf(env, sb))
  {
  }

  lemma OneMoreWaits(c: Chain, d: Chain, p: Root, r: Root)
    requires d.signed == c.signed && d.pending == WithPending(c.pending, p, r)
    ensures forall x :: x in Waiting(d) ==> x in Waiting(c) || x == r
  {
  }

  lemma PendWaits(env: Env, c: Chain, sb: SignedBlock, ancestor: Root)
    ensures forall x :: x in Waiting(Pend(env, c, sb, ancestor)) ==> x in Waiting(c) || x == RootOf(env, sb)
  {
  }

  lemma PendSettles(env: Env, c: Chain, session: set<Root>, sb: SignedBlock, ancestor: Root)
    requires Sound(env, c) && Settled(env, c, session, []) && sb.block.parentRoot !in c.states
    ensures Settled(env, Pend(env, c, sb, ancestor), session + {RootOf(env, sb)}, [])
  {
    var root := RootOf(env, sb);
    var d := Pend(env, c, sb, ancestor);
    forall r | r in session + {root} ensures Handled(env, d, [], r) {
      if r == root {
        assert Registered(d, root);
      } else {
        assert Handled(env, c, [], r);
        assert d.signed[r] == c.signed[r];
      }
    }
  }

  lemma RegisterSettles(env: Env, c: Chain, session: set<Root>, r: Root)
    requires Settled(env, c, session, []) && r in c.signed
    ensures var p := c.signed[r].block.parentRoot;
            Settled(env, Register(c, p, r).(missing := c.missing[r := p]), session + {r}, [])
  {
    var p := c.signed[r].block.parentRoot;
    var d := Register(c, p, r).(missing := c.missing[r := p]);
    forall x | x in session + {r} ensures Handled(env, d, [], x) {
      if x == r {
        assert Registered(d, r);
      } else {
        assert Handled(env, c, [], x);
      }
    }
  }

  // The steps of the handler

  /** The consistent values of the server's data while `queue` is still to be worked off. */
  ghost function Consistent(env: Env, session: set<Root>, queue: seq<SignedBlock>): iset<Chain> {
    iset c: Chain | Sound(env, c) && Settled(env, c, session, queue) && Ready(env, c, queue)
  }

  /** A cached missing ancestor leads to a proper ancestor. */
  lemma StepToCached(env: Env, c: Chain, session: set<Root>, queue: seq<SignedBlock>, sb: SignedBlock, x: Root)
    requires c in Consistent(env, session, queue) && x in c.missing
    requires x !in env.anchors && Ancestor(env, WithSigned(env, c, sb).headers, x, RootOf(env, sb))
    ensures c.missing[x] !in env.anchors && env.depth(c.missing[x]) < env.depth(x)
    ensures Ancestor(env, WithSigned(env, c, sb).headers, c.missing[x], RootOf(env, sb))
  {
    var headers := WithSigned(env, c, sb).headers;
    AncestorIsShallower(env, c.headers, c.missing[x], x);
    AncestorKept(env, c.headers, headers, c.missing[x], x);
    AncestorChains(env, headers, c.missing[x], x, RootOf(env, sb));
  }

  lemma ParentIsAncestor(env: Env, c: Chain, session: set<Root>, queue: seq<SignedBlock>, sb: SignedBlock)
    requires c in Consistent(env, session, queue) && sb.block.parentRoot !in c.states
    ensures Ancestor(env, WithSigned(env, c, sb).headers, sb.block.parentRoot, RootOf(env, sb))
    ensures sb.block.parentRoot !in env.anchors
  {
  }

  lemma PendStep(env: Env, c: Chain, session: set<Root>, sb: SignedBlock, ancestor: Root)
    requires c in Consistent(env, session, []) && sb.block.parentRoot !in c.states
    requires ancestor !in env.anchors && Ancestor(env, WithSigned(env, c, sb).headers, ancestor, RootOf(env, sb))
    ensures Pend(env, c, sb, ancestor) in Consistent(env, session + {RootOf(env, sb)}, [])
  {
    PendSound(env, c, sb, ancestor);
    PendSettles(env, c, session, sb, ancestor);
  }

  /** Walking up: a stored block whose parent has no state is registered. */
  lemma RegisterStep(env: Env, c: Chain, session: set<Root>, root: Root, r: Root)
    requires c in Consistent(env, session, []) && r in c.headers && r !in env.anchors
    requires c.headers[r].parentRoot !in c.states && Ancestor(env, c.headers, r, root)
    ensures var p := c.headers[r].parentRoot;
            && r in c.signed
            && Register(c, p, r).(missing := c.missing[r := p]) in Consistent(env, session + {r}, [])
            && p !in env.anchors && env.depth(p) < env.depth(r) && Ancestor(env, c.headers, p, root)
  {
    var p := c.headers[r].parentRoot;
    assert Ancestor(env, c.headers, p, r);
    AncestorChains(env, c.headers, p, r, root);
    RegisterSound(env, c, r);
    RegisterSettles(env, c, session, r);
  }

  /** Walking up: a stored block whose parent has a state can be queued, and is there in full. */
  lemma QueueStep(env: Env, c: Chain, session: set<Root>, r: Root)
    requires c in Consistent(env, session, []) && r in c.headers && r !in env.anchors
    requires c.headers[r].parentRoot in c.states
    ensures r in c.signed && c in Consistent(env, session + {r}, [c.signed[r]])
  {
    var queue := [c.signed[r]];
    assert RootOf(env, c.signed[r]) == r;
    forall x | x in session + {r} ensures Handled(env, c, queue, x) {
      if x == r {
        assert Queued(env, c, queue, r);
      } else {
        assert Handled(env, c, [], x);
      }
    }
  }

  /** The block at the head of the queue, or the first block of an event. */
  ghost predicate NextUp(env: Env, c: Chain, session: set<Root>, sb: SignedBlock, rest: seq<SignedBlock>) {
    || c in Consistent(env, session, [sb] + rest)
    || (rest == [] && c in Consistent(env, session, []))
  }

  lemma NextUpFacts(env: Env, c: Chain, session: set<Root>, sb: SignedBlock, rest: seq<SignedBlock>)
    requires NextUp(env, c, session, sb, rest)
    ensures Sound(env, c) && Settled(env, c, session, [sb] + rest) && Ready(env, c, rest)
    ensures rest == [] || Ready(env, c, [sb])
    ensures sb.block.parentRoot !in c.states ==> rest == [] && c in Consistent(env, session, [])
  {
    if c in Consistent(env, session, [sb] + rest) {
      assert sb in [sb] + rest;
      assert forall q :: q in rest ==> q in [sb] + rest;
    } else {
      forall r | r in session ensures Handled(env, c, [sb] + rest, r) {
        assert Handled(env, c, [], r);
      }
    }
  }

  lemma NextUpPends(env: Env, c: Chain, session: set<Root>, sb: SignedBlock, rest: seq<SignedBlock>)
    requires NextUp(env, c, session, sb, rest) && sb.block.parentRoot !in c.states
    ensures rest == [] && c in Consistent(env, session, [])
  {
  }

  lemma ChildrenStored(env: Env, c: Chain, session: set<Root>, sb: SignedBlock, rest: seq<SignedBlock>, p: Root)
    requires NextUp(env, c, session, sb, rest)
    ensures Children(c, p) <= c.signed.Keys
  {
  }

  lemma CollectNothing(c: Chain, r: Root)
    requires r !in c.pending
    ensures Collect(c, r) == c && Children(c, r) == {}
  {
  }

  lemma SkipStep(env: Env, c: Chain, session: set<Root>, sb: SignedBlock, rest: seq<SignedBlock>)
    requires NextUp(env, c, session, sb, rest) && (!env.accepts(sb) || RootOf(env, sb) in c.states)
    ensures sb.block.parentRoot in c.states ==> c in Consistent(env, session, rest)
    ensures RootOf(env, sb) in c.states ==> RootOf(env, sb) !in c.pending
  {
    NextUpFacts(env, c, session, sb, rest);
    RejectSettles(env, c, session, sb, rest);
  }

  lemma ImportStep(env: Env, c: Chain, session: set<Root>, sb: SignedBlock, rest: seq<SignedBlock>,
                   queue: seq<SignedBlock>)
    requires NextUp(env, c, session, sb, rest)
    requires sb.block.parentRoot in c.states && RootOf(env, sb) !in c.states && env.accepts(sb)
    requires Appended(Import(env, c, sb).signed, Children(c, RootOf(env, sb)), rest, queue)
    ensures var d := Collect(Import(env, c, sb), RootOf(env, sb));
            && d in Consistent(env, session + {RootOf(env, sb)}, queue)
            && |queue| + |Waiting(d)| == |rest| + |Waiting(c)|
  {
    NextUpFacts(env, c, session, sb, rest);
    ImportCollectSound(env, c, sb);
    ImportSettles(env, c, session, sb, rest, queue);
    ImportReady(env, c, sb, rest, queue);
    CollectCounts(env, c, sb);
  }

  // The walk up

  /** `x` is stored and its parent's state is there: it can be tried. */
  predicate Triable(headers: map<Root, Header>, states: set<Root>, x: Root) {
    x in headers && headers[x].parentRoot in states
  }

  /** Where the walk up from `r` stops: at a block that can be tried, or at a root without a header. */
  ghost function Top(env: Env, headers: map<Root, Header>, states: set<Root>, r: Root): Root
    decreases env.depth(r)
  {
    if r !in headers || Triable(headers, states, r) || env.depth(headers[r].parentRoot) >= env.depth(r) then r
    else Top(env, headers, states, headers[r].parentRoot)
  }

  ghost predicate HasTriableAncestor(env: Env, headers: map<Root, Header>, states: set<Root>, r: Root) {
    exists x :: Ancestor(env, headers, x, r) && Triable(headers, states, x)
  }

  lemma {:induction false} NothingTriableBelow(env: Env, headers: map<Root, Header>, states: set<Root>, r: Root,
                                               x: Root)
    requires Top(env, headers, states, r) !in headers && Ancestor(env, headers, x, r)
    ensures !Triable(headers, states, x)
    decreases env.depth(r)
  {
    var p := headers[r].parentRoot;
    if p != x {
      NothingTriableBelow(env, headers, states, p, x);
    }
  }

  /** A state reaches up to every ancestor short of an anchor. */
  lemma {:induction false} StatesReachUp(env: Env, c: Chain, a: Root, r: Root)
    requires Sound(env, c) && r in c.states && r !in env.anchors && Ancestor(env, c.headers, a, r)
    ensures a in c.states
    decreases env.depth(r)
  {
    var p := c.headers[r].parentRoot;
    assert c.signed[r].block.parentRoot == p;
    if p != a {
      StatesReachUp(env, c, a, p);
    }
  }

  /** Walking up from any ancestor that is not an anchor finds out whether anything above the block can be
      tried: a cached shortcut does not skip a block that could. */
  lemma WalkIsExhaustive(env: Env, c: Chain, start: Root, r: Root, x: Root)
    requires Sound(env, c) && Ancestor(env, c.headers, start, r) && start !in env.anchors
    requires Top(env, c.headers, c.states, start) !in c.headers && Ancestor(env, c.headers, x, r)
    ensures !Triable(c.headers, c.states, x)
  {
    AncestorsLinear(env, c.headers, start, x, r);
    if x != start {
      if Ancestor(env, c.headers, x, start) {
        NothingTriableBelow(env, c.headers, c.states, start, x);
      } else if Triable(c.headers, c.states, x) {
        StartHasState(env, c, start, x);
      }
    }
  }

  lemma StartHasState(env: Env, c: Chain, start: Root, x: Root)
    requires Sound(env, c) && Ancestor(env, c.headers, start, x) && start !in env.anchors
    requires Triable(c.headers, c.states, x)
    ensures start in c.headers && Top(env, c.headers, c.states, start) == start
  {
    var p := c.headers[x].parentRoot;
    if p != start {
      StatesReachUp(env, c, start, p);
    }
  }

  /** The outcome of a walk from an ancestor of `r`: the one block to try, or the one root to ask for because
      nothing above `r` can be tried. */
  ghost predicate Outcome(env: Env, c: Chain, r: Root, queue: seq<SignedBlock>, request: Option<Root>) {
    match request
    case None => exists x :: Ancestor(env, c.headers, x, r) && Triable(c.headers, c.states, x)
                             && x in c.signed && queue == [c.signed[x]]
    case Some(x) => queue == [] && x !in c.headers && Ancestor(env, c.headers, x, r)
                    && !HasTriableAncestor(env, c.headers, c.states, r)
  }

  lemma WalkOutcome(env: Env, c: Chain, start: Root, r: Root, request: Root)
    requires Sound(env, c) && Ancestor(env, c.headers, start, r) && start !in env.anchors
    requires Top(env, c.headers, c.states, start) == request && request !in c.headers
    requires Ancestor(env, c.headers, request, r)
    ensures Outcome(env, c, r, [], Some(request))
  {
    forall x | Ancestor(env, c.headers, x, r) ensures !Triable(c.headers, c.states, x) {
      WalkIsExhaustive(env, c, start, r, x);
    }
  }

  // What the settled state means

  /** Between events a stored session block whose parent state is there has a state exactly when it is accepted. */
  lemma ImportedIffAccepted(env: Env, c: Chain, session: set<Root>, r: Root)
    requires Sound(env, c) && Settled(env, c, session, []) && r in session && r !in env.anchors
    requires r in c.signed && c.signed[r].block.parentRoot in c.states
    ensures r in c.states <==> env.accepts(c.signed[r])
  {
    assert Handled(env, c, [], r);
  }

  lemma ReadyHead(env: Env, c: Chain, session: set<Root>, queue: seq<SignedBlock>)
    requires queue != [] && c in Consistent(env, session, queue)
    ensures NextUp(env, c, session, queue[0], queue[1..])
    ensures queue[0].block.parentRoot in c.states
    ensures RootOf(env, queue[0]) in c.signed && c.signed[RootOf(env, queue[0])] == queue[0]
    ensures SignedAfter(env, c, queue[0]) == c.signed && HeadersAfter(env, c, queue[0]) == c.headers
  {
    assert queue == [queue[0]] + queue[1..];
    assert queue[0] in queue;
  }
}
