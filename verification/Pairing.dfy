// Edges and their sketch indices (src/util.cpp).

module Pairing {

  const NODE_LIMIT: nat := 0x1_0000_0000 // node_id_t is 32 bits wide

  /** An edge as handed to a sketch; undirected graphs store it with src < dst. */
  datatype Edge = Edge(src: nat, dst: nat)

  function Norm(e: Edge): Edge {
    if e.src > e.dst then Edge(e.dst, e.src) else e
  }

  /** concat_pairing_fn: the smaller endpoint in the high 32 bits. */
  function ConcatPairing(i: nat, j: nat): nat
    requires i < NODE_LIMIT && j < NODE_LIMIT
  {
    var e := Norm(Edge(i, j));
    e.src * NODE_LIMIT + e.dst
  }

  /** inv_concat_pairing_fn: both halves are truncated to node_id_t. */
  function InvConcatPairing(idx: nat): (e: Edge)
    ensures e.src < NODE_LIMIT && e.dst < NODE_LIMIT
  {
    Edge(idx / NODE_LIMIT % NODE_LIMIT, idx % NODE_LIMIT)
  }

  /** Decoding recovers the edge, whichever way round it was encoded, and fits 64 bits. */
  lemma PairingRoundTrip(i: nat, j: nat)
    requires i < NODE_LIMIT && j < NODE_LIMIT
    ensures InvConcatPairing(ConcatPairing(i, j)) == Norm(Edge(i, j))
    ensures ConcatPairing(i, j) == ConcatPairing(j, i)
    ensures ConcatPairing(i, j) < NODE_LIMIT * NODE_LIMIT
    ensures ConcatPairing(i, j) == 0 <==> i == 0 && j == 0
  {
    var e := Norm(Edge(i, j));
    var idx := ConcatPairing(i, j);
    assert idx == e.src * NODE_LIMIT + e.dst;
    assert idx / NODE_LIMIT == e.src;
  }

  /** Two pairs share an index only when they are the same unordered pair. */
  lemma PairingInjective(i: nat, j: nat, k: nat, l: nat)
    requires i < NODE_LIMIT && j < NODE_LIMIT && k < NODE_LIMIT && l < NODE_LIMIT
    ensures ConcatPairing(i, j) == ConcatPairing(k, l) <==> Norm(Edge(i, j)) == Norm(Edge(k, l))
  {
    PairingRoundTrip(i, j);
    PairingRoundTrip(k, l);
  }

  function Smaller(i: nat, j: nat): nat {
    if i < j then i else j
  }

  function Larger(i: nat, j: nat): nat {
    if i < j then j else i
  }

  /** Indices order the pairs by their smaller endpoint, then by their larger one. */
  lemma PairingOrders(i: nat, j: nat, k: nat, l: nat)
    requires i < NODE_LIMIT && j < NODE_LIMIT && k < NODE_LIMIT && l < NODE_LIMIT
    ensures ConcatPairing(i, j) < ConcatPairing(k, l) <==>
            Smaller(i, j) < Smaller(k, l) || (Smaller(i, j) == Smaller(k, l) && Larger(i, j) < Larger(k, l))
  {
    assert ConcatPairing(i, j) == Smaller(i, j) * NODE_LIMIT + Larger(i, j);
    assert ConcatPairing(k, l) == Smaller(k, l) * NODE_LIMIT + Larger(k, l);
  }

  /** Every 64-bit index whose halves are in order is the index of the edge it decodes to. */
  lemma UnpairingRoundTrip(idx: nat)
    requires idx < NODE_LIMIT * NODE_LIMIT
    ensures var e := InvConcatPairing(idx);
      ConcatPairing(e.src, e.dst) == idx <==> e.src <= e.dst
  {
    assert idx / NODE_LIMIT < NODE_LIMIT;
  }
}
