/** The pending votes: one tally of validator bits per target root, and their flattened form in the state. */
module VoteMatrix {
  import opened Types

  type Tallies = map<Root, seq<bool>>

  predicate Ascending(roots: seq<Root>) {
    forall i, j :: 0 <= i < j < |roots| ==> roots[i] < roots[j]
  }

  ghost predicate Lists(roots: seq<Root>, keys: set<Root>) {
    Ascending(roots) && forall r :: r in roots <==> r in keys
  }

  ghost predicate Uniform(tallies: Tallies, n: nat) {
    forall r :: r in tallies ==> |tallies[r]| == n
  }

  // Counting votes

  function CountVotes(votes: seq<bool>): (c: nat)
    ensures c <= |votes|
  {
    if votes == [] then 0
    else CountVotes(votes[..|votes| - 1]) + if votes[|votes| - 1] then 1 else 0
  }

  ghost function Voted(votes: seq<bool>): set<ValidatorIndex> {
    set v | 0 <= v < |votes| && votes[v]
  }

  lemma {:induction false} CountIsCardinality(votes: seq<bool>)
    ensures CountVotes(votes) == |Voted(votes)|
  {
    if votes == [] {
      assert Voted(votes) == {};
    } else {
      var k := |votes| - 1;
      CountIsCardinality(votes[..k]);
      if votes[k] {
        assert Voted(votes) == Voted(votes[..k]) + {k};
      } else {
        assert Voted(votes) == Voted(votes[..k]);
      }
    }
  }

  /** No bit set, no vote counted. */
  lemma {:induction false} CountNone(votes: seq<bool>)
    requires forall v :: 0 <= v < |votes| ==> !votes[v]
    ensures CountVotes(votes) == 0
  {
    if votes != [] {
      CountNone(votes[..|votes| - 1]);
    }
  }

  method Count(votes: seq<bool>) returns (c: nat)
    ensures c == CountVotes(votes)
  {
    c := 0;
    for i := 0 to |votes|
      invariant c == CountVotes(votes[..i])
    {
      assert votes[..i + 1][..i] == votes[..i];
      if votes[i] { c := c + 1; }
    }
    assert votes[..|votes|] == votes;
  }

  // Sorted listing of the keys

  /** The ascending listing of a set of roots. */
  ghost function Listing(keys: set<Root>): (roots: seq<Root>)
    ensures Lists(roots, keys)
  {
    assert exists roots :: Lists(roots, keys) by { var _ := HasListing(keys); }
    var roots :| Lists(roots, keys);
    roots
  }

  lemma {:induction false} HasListing(keys: set<Root>) returns (roots: seq<Root>)
    ensures Lists(roots, keys)
  {
    if keys == {} {
      roots := [];
    } else {
      var m := HasGreatest(keys);
      var front := HasListing(keys - {m});
      forall i | 0 <= i < |front| ensures front[i] < m {
        assert front[i] in front;
      }
      roots := front + [m];
    }
  }

  lemma {:induction false} HasGreatest(keys: set<Root>) returns (m: Root)
    requires keys != {}
    ensures m in keys && forall r :: r in keys ==> r <= m
  {
    var x :| x in keys;
    var rest := keys - {x};
    m := x;
    assert forall r :: r in keys ==> r == x || r in rest;
    if rest != {} {
      var g := HasGreatest(rest);
      if x < g { m := g; }
    }
  }

  /** One set of keys has one ascending listing, whatever order it was collected in. */
  lemma {:induction false} ListingUnique(a: seq<Root>, b: seq<Root>, keys: set<Root>)
    requires Lists(a, keys) && Lists(b, keys)
    ensures a == b
  {
    if keys == {} {
      if a != [] { ListsSomething(a, keys); }
      if b != [] { ListsSomething(b, keys); }
    } else {
      var k :| k in keys;
      assert k in a && k in b;
      LastIsGreatest(a, keys);
      LastIsGreatest(b, keys);
      DropLast(a, keys);
      DropLast(b, keys);
      ListingUnique(a[..|a| - 1], b[..|b| - 1], keys - {a[|a| - 1]});
      assert a == a[..|a| - 1] + [a[|a| - 1]] && b == b[..|b| - 1] + [b[|b| - 1]];
    }
  }

  lemma ListsSomething(a: seq<Root>, keys: set<Root>)
    requires Lists(a, keys) && a != []
    ensures keys != {}
  {
    assert a[0] in a;
  }

  lemma LastIsGreatest(a: seq<Root>, keys: set<Root>)
    requires Lists(a, keys) && a != []
    ensures a[|a| - 1] in keys
    ensures forall r :: r in keys ==> r <= a[|a| - 1]
  {
  }

  lemma DropLast(a: seq<Root>, keys: set<Root>)
    requires Lists(a, keys) && a != []
    ensures Lists(a[..|a| - 1], keys - {a[|a| - 1]})
  {
  }

  method SortKeys(keys: set<Root>) returns (roots: seq<Root>)
    ensures roots == Listing(keys)
  {
    roots := [];
    var rest := keys;
    while rest != {}
      invariant rest <= keys
      invariant Lists(roots, keys - rest)
    {
      var k :| k in rest;
      var i := 0;
      while i < |roots| && roots[i] < k
        invariant 0 <= i <= |roots|
        invariant forall j :: 0 <= j < i ==> roots[j] < k
      {
        i := i + 1;
      }
      InsertKeepsListing(roots, i, k, keys - rest);
      roots := roots[..i] + [k] + roots[i..];
      rest := rest - {k};
      assert keys - rest == keys - (rest + {k}) + {k};
    }
    ListingUnique(roots, Listing(keys), keys);
  }

  lemma InsertKeepsListing(roots: seq<Root>, i: nat, k: Root, keys: set<Root>)
    requires Lists(roots, keys) && k !in keys && i <= |roots|
    requires forall j :: 0 <= j < i ==> roots[j] < k
    requires i < |roots| ==> k <= roots[i]
    ensures Lists(roots[..i] + [k] + roots[i..], keys + {k})
  {
  }

  // Flattening

  ghost function Flatten(roots: seq<Root>, tallies: Tallies): seq<bool>
    requires forall r :: r in roots ==> r in tallies
  {
    if roots == [] then []
    else Flatten(roots[..|roots| - 1], tallies) + tallies[roots[|roots| - 1]]
  }

  lemma {:induction false} FlattenLength(roots: seq<Root>, tallies: Tallies, n: nat)
    requires forall r :: r in roots ==> r in tallies && |tallies[r]| == n
    ensures |Flatten(roots, tallies)| == |roots| * n
  {
    if roots != [] {
      FlattenLength(roots[..|roots| - 1], tallies, n);
      assert |roots| * n == (|roots| - 1) * n + n;
    }
  }

  function Min(a: nat, b: nat): nat { if a <= b then a else b }

  /** `skip(i * n).take(n)`. */
  function Chunk(votes: seq<bool>, i: nat, n: nat): seq<bool> {
    var lo := Min(i * n, |votes|);
    votes[lo..Min(lo + n, |votes|)]
  }

  /** The map built from the first `k` roots and their chunks. */
  function DecodePrefix(roots: seq<Root>, votes: seq<bool>, n: nat, k: nat): Tallies
    requires k <= |roots|
  {
    if k == 0 then map[]
    else DecodePrefix(roots, votes, n, k - 1)[roots[k - 1] := Chunk(votes, k - 1, n)]
  }

  function Decode(roots: seq<Root>, votes: seq<bool>, n: nat): Tallies {
    DecodePrefix(roots, votes, n, |roots|)
  }

  method DecodeTallies(roots: seq<Root>, votes: seq<bool>, n: nat) returns (tallies: Tallies)
    ensures tallies == Decode(roots, votes, n)
  {
    tallies := map[];
    for i := 0 to |roots|
      invariant tallies == DecodePrefix(roots, votes, n, i)
    {
      tallies := tallies[roots[i] := Chunk(votes, i, n)];
    }
  }

  method EncodeTallies(tallies: Tallies, n: nat) returns (roots: seq<Root>, votes: seq<bool>)
    requires Uniform(tallies, n)
    ensures roots == Listing(tallies.Keys)
    ensures votes == Flatten(roots, tallies)
  {
    roots := SortKeys(tallies.Keys);
    FlattenLength(roots, tallies, n);
    votes := FillRows(tallies, n, roots, |roots| * n);
  }

  /** Writes the tallies row by row into a zeroed matrix of the given size. */
  method FillRows(tallies: Tallies, n: nat, roots: seq<Root>, size: nat) returns (votes: seq<bool>)
    requires forall r :: r in roots ==> r in tallies && |tallies[r]| == n
    requires size == |Flatten(roots, tallies)|
    ensures votes == Flatten(roots, tallies)
  {
    votes := seq(size, _ => false);
    var at := 0;
    for i := 0 to |roots|
      invariant |votes| == size
      invariant at == |Flatten(roots[..i], tallies)| <= size
      invariant votes[..at] == Flatten(roots[..i], tallies)
      invariant forall k :: at <= k < size ==> !votes[k]
    {
      NextRow(roots, tallies, n, i);
      votes := SetRow(votes, at, tallies[roots[i]]);
      at := at + n;
    }
    assert roots[..|roots|] == roots;
    assert votes[..at] == votes;
  }

  lemma NextRow(roots: seq<Root>, tallies: Tallies, n: nat, i: nat)
    requires forall r :: r in roots ==> r in tallies && |tallies[r]| == n
    requires i < |roots|
    ensures |Flatten(roots[..i], tallies)| + n <= |Flatten(roots, tallies)|
    ensures Flatten(roots[..i + 1], tallies) == Flatten(roots[..i], tallies) + tallies[roots[i]]
  {
    FlattenLength(roots[..i], tallies, n);
    FlattenLength(roots, tallies, n);
    RowFits(i, |roots|, n);
    assert roots[..i + 1][..i] == roots[..i];
  }

  /** Copies the set bits of one tally into the zeroed matrix. */
  method SetRow(votes: seq<bool>, at: nat, tally: seq<bool>) returns (out: seq<bool>)
    requires at + |tally| <= |votes|
    requires forall k :: at <= k < |votes| ==> !votes[k]
    ensures |out| == |votes|
    ensures out[..at + |tally|] == votes[..at] + tally
    ensures forall k :: at + |tally| <= k < |votes| ==> !out[k]
  {
    out := votes;
    for j := 0 to |tally|
      invariant |out| == |votes|
      invariant out[..at + j] == votes[..at] + tally[..j]
      invariant forall k :: at + j <= k < |votes| ==> !out[k]
    {
      if tally[j] {
        out := out[at + j := true];
      }
      assert out[..at + j + 1] == out[..at + j] + [tally[j]];
    }
    assert tally[..|tally|] == tally;
  }

  lemma RowFits(i: nat, rows: nat, n: nat)
    requires i < rows
    ensures i * n + n <= rows * n && (i + 1) * n == i * n + n
  {
    assert rows * n == (i + 1) * n + (rows - i - 1) * n;
  }

  // Round trips

  lemma {:induction false} ChunkOfFlatten(roots: seq<Root>, tallies: Tallies, n: nat, i: nat)
    requires forall r :: r in roots ==> r in tallies && |tallies[r]| == n
    requires i < |roots|
    ensures Chunk(Flatten(roots, tallies), i, n) == tallies[roots[i]]
  {
    var k := |roots| - 1;
    var front := Flatten(roots[..k], tallies);
    FlattenLength(roots[..k], tallies, n);
    FlattenLength(roots, tallies, n);
    if i < k {
      ChunkOfFlatten(roots[..k], tallies, n, i);
      RowFits(i, k, n);
      RowFits(i, |roots|, n);
      assert Chunk(Flatten(roots, tallies), i, n) == Chunk(front, i, n);
    } else {
      RowFits(k, |roots|, n);
    }
  }

  lemma {:induction false} DecodePrefixEntries(roots: seq<Root>, votes: seq<bool>, n: nat, k: nat)
    requires Ascending(roots) && k <= |roots|
    ensures forall r :: r in DecodePrefix(roots, votes, n, k) <==> r in roots[..k]
    ensures forall i :: 0 <= i < k ==> DecodePrefix(roots, votes, n, k)[roots[i]] == Chunk(votes, i, n)
  {
    if k > 0 {
      DecodePrefixEntries(roots, votes, n, k - 1);
      LastEntry(roots, k, DecodePrefix(roots, votes, n, k - 1), Chunk(votes, k - 1, n));
      var m := DecodePrefix(roots, votes, n, k);
      forall i | 0 <= i < k ensures roots[i] in m && m[roots[i]] == Chunk(votes, i, n) {
        if i < k - 1 {
          assert roots[i] in roots[..k - 1] && roots[i] != roots[k - 1];
        }
      }
    }
  }

  lemma LastEntry(roots: seq<Root>, k: nat, m: Tallies, chunk: seq<bool>)
    requires 0 < k <= |roots| && forall r :: r in m <==> r in roots[..k - 1]
    ensures forall r :: r in m[roots[k - 1] := chunk] <==> r in roots[..k]
  {
  }

  /** Decoding what was encoded gives the same map back. */
  lemma DecodeAfterEncode(tallies: Tallies, n: nat)
    requires Uniform(tallies, n)
    ensures var roots := Listing(tallies.Keys);
            && |Flatten(roots, tallies)| == |roots| * n
            && Decode(roots, Flatten(roots, tallies), n) == tallies
  {
    var roots := Listing(tallies.Keys);
    FlattenLength(roots, tallies, n);
    DecodesTo(roots, Flatten(roots, tallies), n, tallies) by {
      forall i | 0 <= i < |roots| ensures Chunk(Flatten(roots, tallies), i, n) == tallies[roots[i]] {
        ChunkOfFlatten(roots, tallies, n, i);
      }
    }
  }

  lemma DecodesTo(roots: seq<Root>, votes: seq<bool>, n: nat, tallies: Tallies)
    requires Lists(roots, tallies.Keys)
    requires forall i :: 0 <= i < |roots| ==> Chunk(votes, i, n) == tallies[roots[i]]
    ensures Decode(roots, votes, n) == tallies
  {
    var m := Decode(roots, votes, n);
    DecodePrefixEntries(roots, votes, n, |roots|);
    assert roots[..|roots|] == roots;
    forall r | r in tallies ensures r in m && m[r] == tallies[r] {
      assert r in roots;
      var i :| 0 <= i < |roots| && roots[i] == r;
    }
  }

  lemma ChunkExtends(votes: seq<bool>, rows: nat, n: nat, k: nat)
    requires |votes| == rows * n && 0 < k <= rows
    ensures (k - 1) * n <= k * n <= |votes|
    ensures votes[..k * n] == votes[..(k - 1) * n] + Chunk(votes, k - 1, n)
  {
  }

  /** A chunk per root, concatenated, is the matrix again. */
  lemma {:induction false} FlattenOfChunks(roots: seq<Root>, votes: seq<bool>, n: nat, tallies: Tallies, k: nat)
    requires |votes| == |roots| * n && k <= |roots|
    requires forall i :: 0 <= i < |roots| ==> roots[i] in tallies && tallies[roots[i]] == Chunk(votes, i, n)
    ensures k * n <= |votes| && Flatten(roots[..k], tallies) == votes[..k * n]
  {
    if k > 0 {
      FlattenOfChunks(roots, votes, n, tallies, k - 1);
      ChunkExtends(votes, |roots|, n, k);
      assert roots[..k][..k - 1] == roots[..k - 1];
    }
  }

  lemma ChunkLength(votes: seq<bool>, rows: nat, i: nat, n: nat)
    requires |votes| == rows * n && i < rows
    ensures |Chunk(votes, i, n)| == n
  {
    RowFits(i, rows, n);
  }

  lemma DecodeUniform(roots: seq<Root>, votes: seq<bool>, n: nat)
    requires Ascending(roots) && |votes| == |roots| * n
    ensures Uniform(Decode(roots, votes, n), n)
    ensures Lists(roots, Decode(roots, votes, n).Keys)
  {
    var m := Decode(roots, votes, n);
    DecodePrefixEntries(roots, votes, n, |roots|);
    assert roots[..|roots|] == roots;
    forall r | r in m ensures |m[r]| == n {
      var i :| 0 <= i < |roots| && roots[i] == r;
      ChunkLength(votes, |roots|, i, n);
    }
  }

  lemma FlattenOfAllChunks(roots: seq<Root>, votes: seq<bool>, n: nat, m: Tallies, size: nat)
    requires size == |roots| * n && |votes| == size && Lists(roots, m.Keys)
    requires forall i :: 0 <= i < |roots| ==> m[roots[i]] == Chunk(votes, i, n)
    ensures Flatten(roots, m) == votes
  {
    FlattenOfChunks(roots, votes, n, m, |roots|);
    assert roots[..|roots|] == roots;
    assert votes[..size] == votes;
  }

  /** Encoding what a sorted rectangular form decodes to gives it back. */
  lemma EncodeAfterDecode(roots: seq<Root>, votes: seq<bool>, n: nat)
    requires Ascending(roots) && |votes| == |roots| * n
    ensures Listing(Decode(roots, votes, n).Keys) == roots
    ensures Flatten(roots, Decode(roots, votes, n)) == votes
  {
    var m := Decode(roots, votes, n);
    DecodeUniform(roots, votes, n);
    ListingUnique(Listing(m.Keys), roots, m.Keys);
    DecodePrefixEntries(roots, votes, n, |roots|);
    FlattenOfAllChunks(roots, votes, n, m, |votes|);
  }
}
