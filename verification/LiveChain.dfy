/** The live-chain index: its 40-byte keys, and pruning it by stopping at the first live key. */
module LiveChain {
  import opened Types
  import F = ForkChoice
  import S = Store

  type Byte = b: nat | b < 256

  const SLOT_BYTES: nat := 8
  const KEY_BYTES: nat := 40

  function Pow256(k: nat): (p: nat)
    ensures p > 0
  {
    if k == 0 then 1 else 256 * Pow256(k - 1)
  }

  function BigEndian(n: nat, k: nat): (b: seq<Byte>)
    ensures |b| == k
  {
    if k == 0 then [] else BigEndian(n / 256, k - 1) + [n % 256]
  }

  function FromBigEndian(b: seq<Byte>): nat {
    if b == [] then 0 else 256 * FromBigEndian(b[..|b| - 1]) + b[|b| - 1]
  }

  predicate IsKey(key: seq<Byte>) { |key| == KEY_BYTES }

  function EncodeKey(slot: Slot, root: seq<Byte>): seq<Byte> {
    BigEndian(slot, SLOT_BYTES) + root
  }

  function KeySlot(key: seq<Byte>): Slot
    requires IsKey(key)
  {
    FromBigEndian(key[..SLOT_BYTES])
  }

  function KeyRoot(key: seq<Byte>): seq<Byte>
    requires IsKey(key)
  {
    key[SLOT_BYTES..]
  }

  // Round trips

  lemma {:induction false} BigEndianDecodes(n: nat, k: nat)
    requires n < Pow256(k)
    ensures FromBigEndian(BigEndian(n, k)) == n
  {
    if k > 0 {
      BigEndianDecodes(n / 256, k - 1);
      var b := BigEndian(n, k);
      assert b[..k - 1] == BigEndian(n / 256, k - 1);
    }
  }

  lemma {:induction false} BigEndianEncodes(b: seq<Byte>)
    ensures FromBigEndian(b) < Pow256(|b|)
    ensures BigEndian(FromBigEndian(b), |b|) == b
  {
    if b != [] {
      var front, last := b[..|b| - 1], b[|b| - 1];
      BigEndianEncodes(front);
      var n := FromBigEndian(front);
      assert (256 * n + last) / 256 == n && (256 * n + last) % 256 == last;
      assert b == front + [last];
    }
  }

  lemma SlotFits(slot: Slot)
    ensures slot <= U64_MAX <==> slot < Pow256(SLOT_BYTES)
  {
    assert Pow256(8) == 256 * Pow256(7) == 65536 * Pow256(6) == 0x100_0000 * Pow256(5) == 0x1_0000_0000 * Pow256(4);
    assert Pow256(4) == 256 * Pow256(3) == 65536 * Pow256(2) == 0x1_0000_0000;
  }

  lemma KeyRoundTrip(slot: Slot, root: seq<Byte>)
    requires slot <= U64_MAX && |root| == 32
    ensures var key := EncodeKey(slot, root); IsKey(key) && KeySlot(key) == slot && KeyRoot(key) == root
  {
    SlotFits(slot);
    BigEndianDecodes(slot, SLOT_BYTES);
    assert EncodeKey(slot, root)[..SLOT_BYTES] == BigEndian(slot, SLOT_BYTES);
  }

  lemma KeyReencodes(key: seq<Byte>)
    requires IsKey(key)
    ensures EncodeKey(KeySlot(key), KeyRoot(key)) == key
  {
    BigEndianEncodes(key[..SLOT_BYTES]);
    assert key == key[..SLOT_BYTES] + key[SLOT_BYTES..];
  }

  // Order

  /** The byte order of the ordered backend. */
  predicate LexLess(a: seq<Byte>, b: seq<Byte>) {
    if a == [] then b != []
    else b != [] && (a[0] < b[0] || (a[0] == b[0] && LexLess(a[1..], b[1..])))
  }

  lemma {:induction false} LexConcat(a: seq<Byte>, x: seq<Byte>, b: seq<Byte>, y: seq<Byte>)
    requires |a| == |b|
    ensures LexLess(a + x, b + y) <==> LexLess(a, b) || (a == b && LexLess(x, y))
  {
    if a == [] {
      assert a + x == x && b + y == y;
    } else {
      LexConcat(a[1..], x, b[1..], y);
      assert (a + x)[1..] == a[1..] + x && (b + y)[1..] == b[1..] + y;
      assert a == b <==> a[0] == b[0] && a[1..] == b[1..];
    }
  }

  lemma {:induction false} BigEndianOrder(m: nat, n: nat, k: nat)
    requires m < Pow256(k) && n < Pow256(k)
    ensures LexLess(BigEndian(m, k), BigEndian(n, k)) <==> m < n
    ensures BigEndian(m, k) == BigEndian(n, k) <==> m == n
  {
    if k > 0 {
      BigEndianOrder(m / 256, n / 256, k - 1);
      LexConcat(BigEndian(m / 256, k - 1), [m % 256], BigEndian(n / 256, k - 1), [n % 256]);
      BigEndianDecodes(m, k);
      BigEndianDecodes(n, k);
    }
  }

  /** Byte order on keys is the order on (slot, root). */
  lemma KeyOrder(slot: Slot, root: seq<Byte>, slot': Slot, root': seq<Byte>)
    requires slot <= U64_MAX && slot' <= U64_MAX
    ensures LexLess(EncodeKey(slot, root), EncodeKey(slot', root'))
       <==> slot < slot' || (slot == slot' && LexLess(root, root'))
  {
    SlotFits(slot);
    SlotFits(slot');
    BigEndianOrder(slot, slot', SLOT_BYTES);
    LexConcat(BigEndian(slot, SLOT_BYTES), root, BigEndian(slot', SLOT_BYTES), root');
  }

  // Pruning

  predicate Keys(order: seq<seq<Byte>>) {
    forall i :: 0 <= i < |order| ==> IsKey(order[i])
  }

  predicate Stale(key: seq<Byte>, finalized: Slot)
    requires IsKey(key)
  {
    KeySlot(key) < finalized
  }

  /** `prune_live_chain` over one iteration order: collect keys while they are stale, delete those. */
  method Prune(table: map<seq<Byte>, Root>, order: seq<seq<Byte>>, finalized: Slot)
    returns (kept: map<seq<Byte>, Root>, count: nat)
    requires Keys(order) && forall k :: k in order <==> k in table
    ensures count <= |order|
    ensures forall i :: 0 <= i < count ==> Stale(order[i], finalized)
    ensures count < |order| ==> !Stale(order[count], finalized)
    ensures kept == table - (set k | k in order[..count])
  {
    count := 0;
    while count < |order| && Stale(order[count], finalized)
      invariant count <= |order|
      invariant forall i :: 0 <= i < count ==> Stale(order[i], finalized)
    {
      count := count + 1;
    }
    kept := table - (set k | k in order[..count]);
  }

  predicate StaleFirst(order: seq<seq<Byte>>, finalized: Slot)
    requires Keys(order)
  {
    forall i, j :: 0 <= i < j < |order| && Stale(order[j], finalized) ==> Stale(order[i], finalized)
  }

  /** Stopping at the first live key deletes all stale keys exactly when no live key comes before a stale one. */
  lemma EarlyStopExact(order: seq<seq<Byte>>, finalized: Slot, count: nat)
    requires Keys(order) && count <= |order|
    requires forall i :: 0 <= i < count ==> Stale(order[i], finalized)
    requires count < |order| ==> !Stale(order[count], finalized)
    ensures (forall j :: count <= j < |order| ==> !Stale(order[j], finalized)) <==> StaleFirst(order, finalized)
  {
  }

  /** An ascending iteration, as the ordered backend gives, meets the stale keys first. */
  lemma AscendingIsStaleFirst(order: seq<seq<Byte>>, finalized: Slot)
    requires Keys(order)
    requires forall i, j :: 0 <= i < j < |order| ==> LexLess(order[i], order[j])
    ensures StaleFirst(order, finalized)
  {
    forall i, j | 0 <= i < j < |order| && Stale(order[j], finalized) ensures Stale(order[i], finalized) {
      KeyReencodes(order[i]);
      KeyReencodes(order[j]);
      KeySlotBound(order[i]);
      KeySlotBound(order[j]);
      KeyOrder(KeySlot(order[i]), KeyRoot(order[i]), KeySlot(order[j]), KeyRoot(order[j]));
    }
  }

  lemma KeySlotBound(key: seq<Byte>)
    requires IsKey(key)
    ensures KeySlot(key) <= U64_MAX
  {
    BigEndianEncodes(key[..SLOT_BYTES]);
    SlotFits(KeySlot(key));
  }

  /** Over an ascending iteration the pruned index holds exactly the entries at or above the finalized slot. */
  method PruneAscending(table: map<seq<Byte>, Root>, order: seq<seq<Byte>>, finalized: Slot)
    returns (kept: map<seq<Byte>, Root>, count: nat)
    requires Keys(order) && (forall k :: k in order <==> k in table)
    requires forall i, j :: 0 <= i < j < |order| ==> LexLess(order[i], order[j])
    ensures forall k :: k in kept <==> k in table && IsKey(k) && KeySlot(k) >= finalized
    ensures forall k :: k in kept ==> kept[k] == table[k]
  {
    kept, count := Prune(table, order, finalized);
    AscendingIsStaleFirst(order, finalized);
    EarlyStopExact(order, finalized, count);
    forall k ensures k in kept <==> k in table && IsKey(k) && KeySlot(k) >= finalized {
      if k in table {
        assert k in order;
        var i :| 0 <= i < |order| && order[i] == k;
        if k in order[..count] {
          var c :| 0 <= c < count && order[c] == k;
        }
      }
    }
  }

  // The index of a store

  const ROOT_BYTES: nat := 32

  /** The key of a live block. */
  function IndexKey(live: F.BlockTree, r: Root): seq<Byte>
    requires r in live
  {
    EncodeKey(live[r].slot, BigEndian(r, ROOT_BYTES))
  }

  /** The key and value under which a live block is found, and nothing else is. */
  ghost predicate Encodes(table: map<seq<Byte>, Root>, live: F.BlockTree) {
    && (forall r :: r in live ==> r < Pow256(ROOT_BYTES) && live[r].slot <= U64_MAX)
    && (forall r :: r in live ==> IndexKey(live, r) in table && table[IndexKey(live, r)] == live[r].parent)
    && (forall k :: k in table ==> exists r :: r in live && IndexKey(live, r) == k)
  }

  lemma IndexKeyDecodes(live: F.BlockTree, r: Root)
    requires r in live && r < Pow256(ROOT_BYTES) && live[r].slot <= U64_MAX
    ensures var k := IndexKey(live, r);
            IsKey(k) && KeySlot(k) == live[r].slot && FromBigEndian(KeyRoot(k)) == r
  {
    KeyRoundTrip(live[r].slot, BigEndian(r, ROOT_BYTES));
    BigEndianDecodes(r, ROOT_BYTES);
  }

  /** Reading the table back gives the live blocks: each entry decodes to one, with its slot and parent. */
  lemma IndexDecodes(table: map<seq<Byte>, Root>, live: F.BlockTree, k: seq<Byte>)
    requires Encodes(table, live) && k in table
    ensures IsKey(k)
    ensures var r := FromBigEndian(KeyRoot(k)); r in live && live[r] == F.BlockRef(KeySlot(k), table[k])
  {
    var r :| r in live && IndexKey(live, r) == k;
    IndexKeyDecodes(live, r);
  }

  /** Pruning the encoded index is encoding the pruned index of the store. */
  method PruneIndex(table: map<seq<Byte>, Root>, order: seq<seq<Byte>>, ghost s: S.Store, finalized: Slot)
    returns (kept: map<seq<Byte>, Root>, count: nat)
    requires Encodes(table, s.live) && (forall k :: k in order <==> k in table)
    requires forall i, j :: 0 <= i < j < |order| ==> LexLess(order[i], order[j])
    ensures Encodes(kept, S.PruneFinalized(s, finalized).live)
  {
    forall i | 0 <= i < |order| ensures IsKey(order[i]) {
      IndexDecodes(table, s.live, order[i]);
    }
    kept, count := PruneAscending(table, order, finalized);
    PruneRefines(table, s, finalized, kept);
  }

  lemma SameKey(live: F.BlockTree, pruned: F.BlockTree, r: Root)
    requires r in live && r in pruned && live[r] == pruned[r]
    ensures IndexKey(live, r) == IndexKey(pruned, r)
  {
  }

  lemma PruneRefines(table: map<seq<Byte>, Root>, s: S.Store, finalized: Slot, kept: map<seq<Byte>, Root>)
    requires Encodes(table, s.live)
    requires forall k :: k in kept <==> k in table && IsKey(k) && KeySlot(k) >= finalized
    requires forall k :: k in kept ==> kept[k] == table[k]
    ensures Encodes(kept, S.PruneFinalized(s, finalized).live)
  {
    var pruned := S.PruneFinalized(s, finalized).live;
    forall r | r in pruned ensures IndexKey(pruned, r) in kept && kept[IndexKey(pruned, r)] == pruned[r].parent {
      SameKey(s.live, pruned, r);
      IndexKeyDecodes(s.live, r);
    }
    forall k | k in kept ensures exists r :: r in pruned && IndexKey(pruned, r) == k {
      var r :| r in s.live && IndexKey(s.live, r) == k;
      IndexKeyDecodes(s.live, r);
      SameKey(s.live, pruned, r);
    }
  }
}
