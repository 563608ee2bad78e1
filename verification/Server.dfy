/** The server's block handler: import what can be imported, remember what cannot, drain the queue. */
module Server {
  import opened Types
  import opened Cascade
  import opened Delivery

  /** Block and state tables; a header without a signed block is an anchor's. */
  datatype BlockStore = BlockStore(headers: map<Root, Header>, signed: map<Root, SignedBlock>, states: set<Root>)

  /** Clears the cached ancestors of the children and loads their blocks, in any order. */
  method LoadChildren(signed: map<Root, SignedBlock>, children: set<Root>, cached: map<Root, Root>,
                      queue: seq<SignedBlock>)
    returns (missing: map<Root, Root>, longer: seq<SignedBlock>)
    requires children <= signed.Keys
    ensures missing == cached - children
    ensures Appended(signed, children, queue, longer)
    ensures children == {} ==> longer == queue
  {
    missing, longer := cached, queue;
    var rest := children;
    ghost var done: set<Root> := {};
    assert missing == cached - done;
    while rest != {}
      invariant rest !! done && rest + done == children
      invariant missing == cached - done
      invariant Appended(signed, done, queue, longer)
      invariant children == {} ==> longer == queue
    {
      var root :| root in rest;
      missing := missing - {root};
      RemoveOneMore(cached, done, root);
      if root in signed {
        AppendOne(signed, done, root, queue, longer);
        longer := longer + [signed[root]];
      }
      rest, done := rest - {root}, done + {root};
    }
    assert done == children;
  }

  lemma RemoveOneMore(m: map<Root, Root>, done: set<Root>, r: Root)
    ensures m - done - {r} == m - (done + {r})
  {
  }

  class BlockChainServer {
    const env: Env
    var store: BlockStore
    var pending: map<Root, set<Root>>
    var missing: map<Root, Root>
    ghost var session: set<Root>   // blocks received, or found stored while walking up

    ghost function View(): Chain
      reads this`store, this`pending, this`missing
    {
      Chain(store.headers, store.signed, store.states, pending, missing)
    }

    /** Between events: consistent data, and nothing queued. */
    ghost predicate Valid()
      reads this`store, this`pending, this`missing, this`session
    {
      View() in Consistent(env, session, [])
    }

    /** A server over a database in which only the anchors have a state. */
    constructor (env: Env, store: BlockStore)
      requires store.states == env.anchors
      requires Lawful(env) && Stored(env, store.headers, store.signed)
      ensures Valid() && this.env == env && session == {}
      ensures View() == Chain(store.headers, store.signed, store.states, map[], map[])
    {
      this.env := env;
      this.store := store;
      pending, missing := map[], map[];
      session := {};
    }

    /** Import of a block whose parent state is there: a known block is skipped, a rejected one changes nothing. */
    method ProcessBlock(sb: SignedBlock) returns (ok: bool)
      requires sb.block.parentRoot in store.states
      modifies this`store
      ensures ok == (RootOf(env, sb) in old(store).states || env.accepts(sb))
      ensures View() == if ok && RootOf(env, sb) !in old(store).states then Import(env, old(View()), sb)
                        else old(View())
    {
      var root := RootOf(env, sb);
      if root in store.states {
        return true;
      }
      if !env.accepts(sb) {
        return false;
      }
      store := BlockStore(store.headers[root := HeaderOf(env.H, sb.block)], store.signed[root := sb],
                          store.states + {root});
      return true;
    }

    /** Moves the waiting children of `parent` into the queue; each of them is stored. */
    method CollectPendingChildren(parent: Root, queue: seq<SignedBlock>) returns (longer: seq<SignedBlock>)
      requires forall x :: x in Children(View(), parent) ==> x in store.signed
      modifies this`pending, this`missing
      ensures View() == Collect(old(View()), parent)
      ensures pending == old(pending) - {parent}
      ensures missing == old(missing) - (if parent in old(pending) then old(pending)[parent] else {})
      ensures Appended(store.signed, Children(old(View()), parent), queue, longer)
      ensures Children(old(View()), parent) == {} ==> longer == queue
    {
      longer := queue;
      if parent !in pending {
        assert pending - {parent} == pending && missing - {} == missing;
        return;
      }
      var children := pending[parent];
      pending := pending - {parent};
      missing, longer := LoadChildren(store.signed, children, missing, queue);
    }

    /** `r` is a stored proper ancestor of `root` whose own parent has no state. */
    ghost predicate WaitsAbove(r: Root, root: Root)
      reads this`store
    {
      Ancestor(env, store.headers, r, root) && r in store.signed && store.signed[r].block.parentRoot !in store.states
    }

    /** Follows stored headers up from a missing ancestor: a block that can be imported is queued, one that
        cannot is registered, and the first root without a header is requested. */
    method WalkUp(root: Root, start: Root) returns (queue: seq<SignedBlock>, request: Option<Root>)
      requires Valid() && Ancestor(env, store.headers, start, root) && start !in env.anchors
      modifies this`pending, this`missing, this`session
      ensures View() in Consistent(env, session, queue)
      ensures old(session) <= session <= store.signed.Keys + old(session)
      ensures forall r :: r in Waiting(View()) ==> r in Waiting(old(View())) || WaitsAbove(r, root)
      ensures Outcome(env, View(), root, queue, request)
    {
      var missingRoot := start;
      ghost var top := Top(env, store.headers, store.states, start);
      queue, request := [], None;
      while missingRoot in store.headers
        invariant Valid()
        invariant Ancestor(env, store.headers, missingRoot, root) && missingRoot !in env.anchors
        invariant Top(env, store.headers, store.states, missingRoot) == top
        invariant old(session) <= session <= store.signed.Keys + old(session)
        invariant forall r :: r in Waiting(View()) ==> r in Waiting(old(View())) || WaitsAbove(r, root)
        decreases env.depth(missingRoot)
      {
        ghost var before := View();
        var p := store.headers[missingRoot].parentRoot;
        if p in store.states {
          QueueStep(env, before, session, missingRoot);
          queue := [store.signed[missingRoot]];
          session := session + {missingRoot};
          return;
        }
        RegisterStep(env, before, session, root, missingRoot);
        pending := WithPending(pending, p, missingRoot);
        missing := missing[missingRoot := p];
        session := session + {missingRoot};
        OneMoreWaits(before, View(), p, missingRoot);
        missingRoot := p;
      }
      WalkOutcome(env, View(), start, root, missingRoot);
      request := Some(missingRoot);
    }

    /** The root a block is waiting for, by the cached ancestors: a proper ancestor that has no anchor state. */
    method ResolveMissing(sb: SignedBlock) returns (missingRoot: Root)
      requires Valid() && sb.block.parentRoot !in store.states
      ensures missingRoot !in missing && missingRoot !in env.anchors
      ensures Ancestor(env, WithSigned(env, View(), sb).headers, missingRoot, RootOf(env, sb))
    {
      ghost var c := View();
      ParentIsAncestor(env, c, session, [], sb);
      missingRoot := sb.block.parentRoot;
      while missingRoot in missing
        invariant Ancestor(env, WithSigned(env, c, sb).headers, missingRoot, RootOf(env, sb))
        invariant missingRoot !in env.anchors
        decreases env.depth(missingRoot)
      {
        StepToCached(env, c, session, [], sb, missingRoot);
        missingRoot := missing[missingRoot];
      }
    }

    /** The parent's state is not there: store the block, register it, and look for what to do next. */
    method PendBlock(sb: SignedBlock) returns (queue: seq<SignedBlock>, request: Option<Root>)
      requires Valid() && sb.block.parentRoot !in store.states
      modifies this`store, this`pending, this`missing, this`session
      ensures View() in Consistent(env, session, queue)
      ensures old(session) <= session <= store.signed.Keys + old(session)
      ensures store == old(store).(headers := HeadersAfter(env, old(View()), sb),
                                   signed := SignedAfter(env, old(View()), sb))
      ensures RootOf(env, sb) in session
      ensures Outcome(env, View(), RootOf(env, sb), queue, request)
      ensures forall r :: r in Waiting(View()) ==>
                r in Waiting(old(View())) || r == RootOf(env, sb) || WaitsAbove(r, RootOf(env, sb))
    {
      var root := RootOf(env, sb);
      var parent := sb.block.parentRoot;
      var missingRoot := ResolveMissing(sb);
      PendStep(env, View(), session, sb, missingRoot);
      missing := missing[root := missingRoot];
      store := store.(headers := store.headers[root := HeaderOf(env.H, sb.block)], signed := store.signed[root := sb]);
      pending := WithPending(pending, parent, root);
      session := session + {root};
      PendWaits(env, old(View()), sb, missingRoot);
      queue, request := WalkUp(root, missingRoot);
    }

    /** A block whose parent state is there: import it, and queue the children that waited for it. */
    method ImportBlock(sb: SignedBlock, rest: seq<SignedBlock>) returns (queue: seq<SignedBlock>)
      requires NextUp(env, View(), session, sb, rest) && sb.block.parentRoot in store.states
      modifies this`store, this`pending, this`missing, this`session
      ensures View() in Consistent(env, session, queue)
      ensures || session == old(session)
              || (session == old(session) + {RootOf(env, sb)} && RootOf(env, sb) in store.signed)
      ensures env.accepts(sb) ==> RootOf(env, sb) in store.states
      ensures store.signed == SignedAfter(env, old(View()), sb) && store.headers == HeadersAfter(env, old(View()), sb)
      ensures old(store).states <= store.states && |store.states| <= |old(store).states| + 1
      ensures Keeps(env, old(View()), sb) ==> RootOf(env, sb) in session
      ensures |queue| + |Waiting(View())| <= |rest| + |Waiting(old(View()))|
    {
      var root := RootOf(env, sb);
      ghost var before := View();
      ghost var known := root in before.states;
      var ok := ProcessBlock(sb);
      if known || !ok {
        SkipStep(env, before, session, sb, rest);
      }
      if !ok {
        return rest;
      }
      ChildrenStored(env, before, session, sb, rest, root);
      queue := CollectPendingChildren(root, rest);
      if known {
        CollectNothing(before, root);
      } else {
        ImportStep(env, before, session, sb, rest, queue);
        session := session + {root};
      }
    }

    /** One block off the queue. Only the first one of an event can find its parent's state missing. */
    method ProcessOrPendBlock(sb: SignedBlock, rest: seq<SignedBlock>)
      returns (queue: seq<SignedBlock>, request: Option<Root>)
      requires NextUp(env, View(), session, sb, rest)
      modifies this`store, this`pending, this`missing, this`session
      ensures View() in Consistent(env, session, queue)
      ensures old(session) <= session <= store.signed.Keys + old(session)
      ensures store.signed == SignedAfter(env, old(View()), sb) && store.headers == HeadersAfter(env, old(View()), sb)
      ensures old(store).states <= store.states && |store.states| <= |old(store).states| + 1
      ensures Keeps(env, old(View()), sb) ==> RootOf(env, sb) in session
      ensures env.accepts(sb) && sb.block.parentRoot in old(store).states ==> RootOf(env, sb) in store.states
      ensures sb.block.parentRoot in old(store).states ==>
                request == None && |queue| + |Waiting(View())| <= |rest| + |Waiting(old(View()))|
      ensures sb.block.parentRoot !in old(store).states ==>
                rest == [] && store.states == old(store).states && Outcome(env, View(), RootOf(env, sb), queue, request)
      ensures sb.block.parentRoot !in old(store).states ==> forall r :: r in Waiting(View()) ==>
                r in Waiting(old(View())) || r == RootOf(env, sb) || WaitsAbove(r, RootOf(env, sb))
    {
      if sb.block.parentRoot !in store.states {
        NextUpPends(env, View(), session, sb, rest);
        queue, request := PendBlock(sb);
      } else {
        queue := ImportBlock(sb, rest);
        request := None;
      }
    }

    /** Works off a queue whose blocks all have their parent's state. Every round takes one block off the
        queue or moves one registration into it, so it ends. */
    method Drain(start: seq<SignedBlock>) returns (ghost rounds: nat)
      requires View() in Consistent(env, session, start)
      modifies this`store, this`pending, this`missing, this`session
      ensures Valid() && old(session) <= session && store.signed == old(store).signed
      ensures old(store).states <= store.states
      ensures store.headers == old(store).headers
      ensures start == [] ==> store == old(store)
      ensures rounds <= |start| + |Waiting(old(View()))|
      ensures |store.states| <= |old(store).states| + rounds
    {
      var queue := start;
      rounds := 0;
      while queue != []
        invariant View() in Consistent(env, session, queue)
        invariant old(session) <= session && store.signed == old(store).signed
        invariant store.headers == old(store).headers && old(store).states <= store.states
        invariant |store.states| <= |old(store).states| + rounds
        invariant start == [] ==> queue == [] && store == old(store)
        invariant rounds + |queue| + |Waiting(View())| <= |start| + |Waiting(old(View()))|
        decreases |queue| + |Waiting(View())|
      {
        ReadyHead(env, View(), session, queue);
        var next, rest := queue[0], queue[1..];
        var request;
        queue, request := ProcessOrPendBlock(next, rest);
        rounds := rounds + 1;
      }
    }

    /** The handler for a received block. It ends with nothing importable left waiting. The queue is popped at
        most once plus once per registration that was there; if the block itself has to wait, at most twice plus
        once per registration, those made on the walk up from it included. A proper ancestor that is not stored is
        requested exactly when no stored ancestor can be tried instead. Only the first pop can pend a block,
        so the rest of the queue is drained separately. */
    method OnBlock(sb: SignedBlock) returns (requests: seq<Root>, ghost rounds: nat, ghost registrations: set<Root>)
      requires Valid()
      modifies this`store, this`pending, this`missing, this`session
      ensures Valid() && Event(env, Moment(old(View()), old(session)), sb, Moment(View(), session))
      ensures sb.block.parentRoot in old(store).states ==> rounds <= 1 + |Waiting(old(View()))|
      ensures |store.states| <= |old(store).states| + rounds && rounds <= 2 + |registrations|
      ensures forall r :: r in registrations ==>
                || r in Waiting(old(View()))
                || (r in store.signed && store.signed[r].block.parentRoot !in old(store).states
                    && (r == RootOf(env, sb) || Ancestor(env, store.headers, r, RootOf(env, sb))))
      ensures Asks(env, old(View()), sb, requests, View())
    {
      requests := [];
      ghost var before := View();
      var queue, request := ProcessOrPendBlock(sb, []);
      if request.Some? {
        requests := [request.value];
      }
      registrations := if sb.block.parentRoot in before.states then Waiting(before) else Waiting(View());
      rounds := Drain(queue);
      rounds := rounds + 1;
    }
  }

  method Receive(server: BlockChainServer, ghost headers: map<Root, Header>, ghost past: seq<SignedBlock>,
                 sb: SignedBlock,
                 ghost before: seq<Moment>)
    returns (ghost trace: seq<Moment>)
    requires server.Valid() && IsDelivery(server.env, headers, past, before)
    requires before[|past|] == Moment(server.View(), server.session)
    modifies server
    ensures server.Valid() && IsDelivery(server.env, headers, past + [sb], trace)
    ensures trace[|past| + 1] == Moment(server.View(), server.session)
  {
    var requests, rounds, registrations := server.OnBlock(sb);
    DeliveryGrows(server.env, headers, past, before, sb, Moment(server.View(), server.session));
    trace := before + [Moment(server.View(), server.session)];
  }

  /** A fresh server fed with `blocks` one by one. Unless a block is contested, it ends with exactly the states
      of the accepted blocks whose whole ancestry down to an anchor is accepted too. */
  method ImportAll(env: Env, headers: map<Root, Header>, blocks: seq<SignedBlock>) returns (states: set<Root>)
    requires Startable(env, headers)
    ensures Leaves(env, headers, blocks, states)
    ensures Uncontested(env, Elements(blocks)) ==> forall r :: r in states <==> Derivable(env, Elements(blocks), r)
  {
    var server := new BlockChainServer(env, BlockStore(headers, map[], env.anchors));
    ghost var trace := [Start(env, headers)];
    for i := 0 to |blocks|
      invariant server.env == env && fresh(server) && server.Valid()
      invariant IsDelivery(env, headers, blocks[..i], trace)
      invariant trace[i] == Moment(server.View(), server.session)
    {
      assert blocks[..i + 1] == blocks[..i] + [blocks[i]];
      trace := Receive(server, headers, blocks[..i], blocks[i], trace);
    }
    states := server.store.states;
    assert blocks[..|blocks|] == blocks;
    assert Leaves(env, headers, blocks, states);
    if Uncontested(env, Elements(blocks)) {
      LeavesDerivable(env, headers, blocks, states);
    }
  }
}
