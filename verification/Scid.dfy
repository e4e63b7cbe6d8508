/**
 * Short channel ids and the output they name (kld/src/ldk/channel_utils.rs, kld/src/bitcoind/utxo_lookup.rs).
 * A shift right is a division by a power of two, and a mask of low bits is a remainder.
 */
module Scid {
  import opened Wrappers
  import opened Integers

  const BYTES_2: nat := 0x1_0000
  const BYTES_3: nat := 0x100_0000
  const BYTES_5: nat := 0x100_0000_0000

  // The remainders by 2^32 and 2^16 are the casts to u32 and u16.

  function Block(scid: U64): U32 { (scid / BYTES_5) % 0x1_0000_0000 }

  function TxIndex(scid: U64): U32 { ((scid / BYTES_2) % BYTES_3) % 0x1_0000_0000 }

  function Vout(scid: U64): U16 { (scid % BYTES_2) % 0x1_0000 }

  /** A place in the chain: a block, a transaction in it, and an output of that. */
  datatype Position = Position(block: nat, tx: nat, vout: nat)

  predicate Fits(p: Position) { p.block < BYTES_3 && p.tx < BYTES_3 && p.vout < BYTES_2 }

  /** The definition of short_channel_id in BOLT #7: three bytes, three bytes, two bytes. */
  function Pack(p: Position): U64
    requires Fits(p)
  {
    p.block * BYTES_5 + p.tx * BYTES_2 + p.vout
  }

  function Unpack(scid: U64): Position { Position(Block(scid), TxIndex(scid), Vout(scid)) }

  /** No cast loses a bit, and the three fields put together are the id. */
  lemma PackUnpack(scid: U64)
    ensures Fits(Unpack(scid)) && Pack(Unpack(scid)) == scid
  {
    var high := scid / BYTES_2;
    assert scid / BYTES_5 == high / BYTES_3;
    assert high / BYTES_3 < BYTES_3;
  }

  lemma UnpackPack(p: Position)
    requires Fits(p)
    ensures Unpack(Pack(p)) == p
  {
    var scid := Pack(p);
    var high := p.block * BYTES_3 + p.tx;
    assert scid == high * BYTES_2 + p.vout;
    assert scid / BYTES_2 == high && scid % BYTES_2 == p.vout;
    assert high / BYTES_3 == p.block && high % BYTES_3 == p.tx;
    assert scid / BYTES_5 == p.block;
  }

  // ---- The lookup ----

  type Output(!new, ==)
  type Hash(!new, ==)

  datatype Transaction = Transaction(outputs: seq<Output>)

  datatype BlockData = FullBlock(transactions: seq<Transaction>) | HeaderOnly

  /** What bitcoind answers: a missing key is a failed call. */
  datatype Bitcoind = Bitcoind(hashes: map<nat, Hash>, blocks: map<Hash, BlockData>)

  datatype LookupError = UnknownChain | UnknownTx

  /** The output at a position of the chain that bitcoind serves. */
  function OutputAt(node: Bitcoind, p: Position): Option<Output> {
    if && p.block in node.hashes
       && node.hashes[p.block] in node.blocks
       && node.blocks[node.hashes[p.block]].FullBlock?
       && p.tx < |node.blocks[node.hashes[p.block]].transactions|
       && p.vout < |node.blocks[node.hashes[p.block]].transactions[p.tx].outputs|
    then Some(node.blocks[node.hashes[p.block]].transactions[p.tx].outputs[p.vout])
    else None
  }

  /** `get_utxo`, with what the future resolves to as the result. */
  function GetUtxo(node: Bitcoind, own: Hash, genesis: Hash, scid: U64): Result<Output, LookupError> {
    if genesis != own then Err(UnknownChain)
    else
      var height, index, vout := Block(scid), TxIndex(scid), Vout(scid);
      if height !in node.hashes then Err(UnknownTx)
      else
        var hash := node.hashes[height];
        if hash !in node.blocks || !node.blocks[hash].FullBlock? then Err(UnknownTx)
        else
          var transactions := node.blocks[hash].transactions;
          if index < |transactions| && vout < |transactions[index].outputs| then Ok(transactions[index].outputs[vout])
          else Err(UnknownTx)
  }

  /** On its own chain the lookup finds exactly the outputs whose position packs to the id. */
  lemma ResolvesItsPosition(node: Bitcoind, own: Hash, scid: U64, output: Output)
    ensures GetUtxo(node, own, own, scid) == Ok(output)
       <==> exists p :: Fits(p) && Pack(p) == scid && OutputAt(node, p) == Some(output)
  {
    PackUnpack(scid);
    if GetUtxo(node, own, own, scid) == Ok(output) {
      assert OutputAt(node, Unpack(scid)) == Some(output);
    }
    if p :| Fits(p) && Pack(p) == scid && OutputAt(node, p) == Some(output) {
      UnpackPack(p);
    }
  }

  /** Every other answer is an error, and which one depends on the chain alone. */
  lemma ErrorsAreTold(node: Bitcoind, own: Hash, genesis: Hash, scid: U64)
    ensures GetUtxo(node, own, genesis, scid) == Err(UnknownChain) <==> genesis != own
    ensures (GetUtxo(node, own, genesis, scid) == Err(UnknownTx) <==>
             genesis == own && forall p :: Fits(p) && Pack(p) == scid ==> OutputAt(node, p) == None)
  {
    PackUnpack(scid);
    forall p | Fits(p) && Pack(p) == scid ensures p == Unpack(scid) {
      UnpackPack(p);
    }
  }

  /** The id of an output counts the blocks, the transactions and the outputs before it: on a chain with the
      output at that place the lookup finds it. */
  lemma FoundWhereItIs(node: Bitcoind, own: Hash, height: nat, hash: Hash, before: seq<Transaction>,
                       after: seq<Transaction>, outputs: seq<Output>, output: Output, others: seq<Output>)
    requires Fits(Position(height, |before|, |outputs|))
    ensures (var block := FullBlock(before + [Transaction(outputs + [output] + others)] + after);
      GetUtxo(Bitcoind(node.hashes[height := hash], node.blocks[hash := block]), own, own,
              height * BYTES_5 + |before| * BYTES_2 + |outputs|) == Ok(output))
  {
    UnpackPack(Position(height, |before|, |outputs|));
  }

  /** Two ids that differ name two positions. */
  lemma DistinctIdsDistinctPositions(a: U64, b: U64)
    requires a != b
    ensures Unpack(a) != Unpack(b)
  {
    PackUnpack(a);
    PackUnpack(b);
  }
}
