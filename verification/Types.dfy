/** The containers of the consensus client, and the hashing it relies on. */
module Types {

  /** A 32-byte root read as a big-endian number: `<` on `Root` is the byte order on roots. */
  type Root = nat

  type Slot = nat

  type ValidatorIndex = nat

  const ZERO: Root := 0
  const U64_MAX: nat := 0xFFFF_FFFF_FFFF_FFFF
  const HISTORICAL_ROOTS_LIMIT: nat := 262144
  const VALIDATOR_REGISTRY_LIMIT: nat := 4096

  datatype Option<+T> = None | Some(value: T)

  datatype Result<+T, +E> = Ok(value: T) | Err(error: E)

  datatype Checkpoint = Checkpoint(root: Root, slot: Slot)

  datatype AttestationData = AttestationData(slot: Slot, head: Checkpoint, target: Checkpoint, source: Checkpoint)

  datatype AggregatedAttestation = AggregatedAttestation(bits: seq<bool>, data: AttestationData)

  datatype Header = Header(slot: Slot, proposer: ValidatorIndex, parentRoot: Root, stateRoot: Root, bodyRoot: Root)

  type Body = seq<AggregatedAttestation>

  datatype Block = Block(slot: Slot, proposer: ValidatorIndex, parentRoot: Root, stateRoot: Root, body: Body)

  datatype Validator = Validator(pubkey: nat, index: ValidatorIndex)

  datatype State = State(
    genesisTime: nat,
    slot: Slot,
    header: Header,
    justified: Checkpoint,
    finalized: Checkpoint,
    history: seq<Root>,
    window: seq<bool>,
    validators: seq<Validator>,
    tallyRoots: seq<Root>,
    tallyVotes: seq<bool>)

  /** SSZ tree hashing, one function per hashed container. */
  datatype Hasher = Hasher(
    header: Header -> Root,
    state: State -> Root,
    body: Body -> Root,
    data: AttestationData -> Root)

  /** What the client takes for granted of its hash: header roots do not collide, and no root is zero. */
  ghost predicate CollisionFree(H: Hasher) {
    && (forall h: Header :: H.header(h) != ZERO)
    && (forall h: Header, k: Header :: H.header(h) == H.header(k) ==> h == k)
    && (forall s: State :: H.state(s) != ZERO)
  }

  function HeaderOf(H: Hasher, b: Block): Header {
    Header(b.slot, b.proposer, b.parentRoot, b.stateRoot, H.body(b.body))
  }

  /** The root of a block is the root of its header, by the tree-hash construction. */
  function BlockRoot(H: Hasher, b: Block): Root {
    H.header(HeaderOf(H, b))
  }

  /** `root` is the root of some header at `slot`. */
  ghost predicate IsRootAt(H: Hasher, root: Root, slot: Slot) {
    exists h: Header :: H.header(h) == root && h.slot == slot
  }

  lemma RootAtOneSlot(H: Hasher, root: Root, s: Slot, t: Slot)
    requires CollisionFree(H)
    requires IsRootAt(H, root, s) && IsRootAt(H, root, t)
    ensures root != ZERO && s == t
  {
  }

  lemma RootsDiffer(H: Hasher, root: Root, s: Slot, other: Root, t: Slot)
    requires CollisionFree(H)
    requires IsRootAt(H, root, s) && IsRootAt(H, other, t) && s != t
    ensures root != other
  {
  }

  /** `order` visits every element of `all` once. */
  ghost predicate IsOrder<T(!new)>(all: set<T>, order: seq<T>) {
    && (forall x :: x in order <==> x in all)
    && (forall i, j :: 0 <= i < j < |order| ==> order[i] != order[j])
  }

  lemma {:induction false} HasOrder<T(!new)>(all: set<T>) returns (order: seq<T>)
    ensures IsOrder(all, order)
  {
    order := [];
    if all != {} {
      var x :| x in all;
      order := HasOrder(all - {x});
      order := order + [x];
    }
  }

  /** Step `i` of a sequence does not leave `good`. */
  ghost predicate KeptAt<X>(good: iset<X>, xs: seq<X>, i: nat) {
    i + 1 < |xs| && (xs[i] in good ==> xs[i + 1] in good)
  }

  /** What every step of a sequence keeps holds all along it. */
  lemma {:induction false} StepByStep<X>(good: iset<X>, xs: seq<X>, k: nat)
    requires k < |xs| && xs[0] in good
    requires forall i: nat {:trigger KeptAt(good, xs, i)} :: i + 1 < |xs| ==> KeptAt(good, xs, i)
    ensures xs[k] in good
  {
    if k > 0 {
      StepByStep(good, xs, k - 1);
      assert KeptAt(good, xs, k - 1);
    }
  }
}
