/** The claim index updater (src/index/updater/pepemap_updater.rs): per
    block, each inscription event either creates a claim or moves one to a
    new owner, across three tables held here as immutable maps. */
module PepemapUpdater {
  import opened Wrappers
  import opened Primitives
  import opened Pepemap
  import Multimap

  /** A transaction output reference. */
  datatype OutPoint = OutPoint(txid: Txid, vout: u32)

  /** A position of a sat: an output and an offset into it. */
  datatype SatPoint = SatPoint(outpoint: OutPoint, offset: u64)

  /** An output script, as raw bytes. */
  datatype Script = Script(bytes: seq<bv8>)

  /** The part of a transaction the updater reads: its output scripts. */
  datatype Transaction = Transaction(outputs: seq<Script>)

  /** A row of the persisted transaction table: its bytes either decode as
      a transaction or they do not. */
  datatype StoredTx = Decodes(tx: Transaction) | Undecodable

  /** What an inscription event does. */
  datatype Action = New(inscription: Inscription) | Transfer

  /** An inscription event: its action, the inscription it concerns and
      where the inscription ends up, if anywhere. */
  datatype InscriptionOp = InscriptionOp(action: Action, inscriptionId: InscriptionId, newSatpoint: Option<SatPoint>)

  /** The block being indexed. `ownerKeyOf` is the canonical owner key of
      an output script under the indexer's network: the address text where
      one can be derived, a fallback rendering of the script otherwise. */
  datatype Context = Context(ownerKeyOf: Script -> string, blockHeight: u32, blockTime: u32)

  /** Why a block cannot be indexed. `VoutOutOfRange` stands for the panic
      of indexing past a transaction's outputs. */
  datatype Error =
    | OwnerUnresolved(outpoint: OutPoint)
    | EntryMissing(number: u32)
    | TxUndecodable(txid: Txid)
    | VoutOutOfRange(outpoint: OutPoint)

  /** The three claim tables: number to entry, inscription to number, and
      owner key to the numbers it holds. */
  datatype Tables = Tables(
    primary: map<u32, Entry>,
    reverse: map<InscriptionId, u32>,
    owners: map<string, set<u32>>
  )

  // ---------------------------------------------------------------------------
  // Owner resolution
  // ---------------------------------------------------------------------------

  /** Some pair of `txdata` is listed under `id`. */
  ghost predicate Listed(txdata: seq<(Transaction, Txid)>, id: Txid) {
    exists i :: 0 <= i < |txdata| && txdata[i].1 == id
  }

  /** The pair at `i` is the last one listed under its id. */
  ghost predicate LastListed(txdata: seq<(Transaction, Txid)>, i: int) {
    0 <= i < |txdata| && forall j :: i < j < |txdata| ==> txdata[j].1 != txdata[i].1
  }

  /** The block's transactions by id. Collecting pairs into a hash map keeps
      the last transaction listed under an id. */
  function TxLookup(txdata: seq<(Transaction, Txid)>): (m: map<Txid, Transaction>)
    ensures forall id :: id in m <==> Listed(txdata, id)
    ensures forall i :: LastListed(txdata, i) ==> txdata[i].1 in m && m[txdata[i].1] == txdata[i].0
  {
    if txdata == [] then map[]
    else
      var m := TxLookup(txdata[..|txdata| - 1]);
      LookupKeysStep(txdata, m);
      LookupValuesStep(txdata, m);
      m[txdata[|txdata| - 1].1 := txdata[|txdata| - 1].0]
  }

  /** Collecting one more pair adds its id to the ids collected so far. */
  lemma LookupKeysStep(txdata: seq<(Transaction, Txid)>, m: map<Txid, Transaction>)
    requires txdata != []
    requires forall id :: id in m <==> Listed(txdata[..|txdata| - 1], id)
    ensures var last := txdata[|txdata| - 1];
            forall id :: id in m[last.1 := last.0] <==> Listed(txdata, id)
  {
    var prefix := txdata[..|txdata| - 1];
    var last := txdata[|txdata| - 1];
    forall id | Listed(prefix, id) ensures Listed(txdata, id) {
      var i :| 0 <= i < |prefix| && prefix[i].1 == id;
      assert txdata[i] == prefix[i];
    }
    forall id | Listed(txdata, id) && id != last.1 ensures Listed(prefix, id) {
      var i :| 0 <= i < |txdata| && txdata[i].1 == id;
      assert prefix[i] == txdata[i];
    }
    assert txdata[|txdata| - 1].1 == last.1;
  }

  /** Collecting one more pair maps its id to its transaction and keeps the
      last transaction of every other id. */
  lemma LookupValuesStep(txdata: seq<(Transaction, Txid)>, m: map<Txid, Transaction>)
    requires txdata != []
    requires var prefix := txdata[..|txdata| - 1];
             forall i :: LastListed(prefix, i) ==> prefix[i].1 in m && m[prefix[i].1] == prefix[i].0
    ensures var last := txdata[|txdata| - 1];
            forall i :: LastListed(txdata, i) ==> txdata[i].1 in m[last.1 := last.0] && m[last.1 := last.0][txdata[i].1] == txdata[i].0
  {
    var prefix := txdata[..|txdata| - 1];
    var last := txdata[|txdata| - 1];
    forall i | LastListed(txdata, i) && i < |prefix|
      ensures txdata[i].1 != last.1 && LastListed(prefix, i) && txdata[i] == prefix[i]
    {
      assert txdata[|txdata| - 1].1 != txdata[i].1;
    }
  }

  /** The owner key of output `vout` of `tx`. */
  function OwnerOfOutput(ctx: Context, tx: Transaction, outpoint: OutPoint): Result<string, Error> {
    if outpoint.vout as int < |tx.outputs| then Ok(ctx.ownerKeyOf(tx.outputs[outpoint.vout]))
    else Err(VoutOutOfRange(outpoint))
  }

  /** The owner key of the output holding `satpoint`: taken from the block's
      own transactions when the output's transaction is among them, from
      the persisted transaction table otherwise. */
  function ResolveOwner(ctx: Context, lookup: map<Txid, Transaction>, stored: map<Txid, StoredTx>, satpoint: SatPoint)
    : (r: Result<string, Error>)
    ensures var op := satpoint.outpoint;
            op.txid in lookup ==> r == OwnerOfOutput(ctx, lookup[op.txid], op)
    ensures var op := satpoint.outpoint;
            op.txid !in lookup && op.txid in stored && stored[op.txid].Decodes?
            ==> r == OwnerOfOutput(ctx, stored[op.txid].tx, op)
    ensures var op := satpoint.outpoint;
            r == Err(OwnerUnresolved(op)) <==> op.txid !in lookup && op.txid !in stored
    ensures var op := satpoint.outpoint;
            r == Err(TxUndecodable(op.txid)) <==> op.txid !in lookup && op.txid in stored && stored[op.txid].Undecodable?
  {
    var op := satpoint.outpoint;
    if op.txid in lookup then
      OwnerOfOutput(ctx, lookup[op.txid], op)
    else if op.txid in stored then
      match stored[op.txid]
      case Undecodable => Err(TxUndecodable(op.txid))
      case Decodes(tx) => OwnerOfOutput(ctx, tx, op)
    else
      Err(OwnerUnresolved(op))
  }

  /** One table of every transaction the resolver can see: the persisted
      ones, overridden by the block's own. */
  function Visible(lookup: map<Txid, Transaction>, stored: map<Txid, StoredTx>): (v: map<Txid, StoredTx>)
    ensures v.Keys == lookup.Keys + stored.Keys
    ensures forall id :: id in lookup ==> v[id] == Decodes(lookup[id])
    ensures forall id :: id in stored && id !in lookup ==> v[id] == stored[id]
  {
    stored + map id | id in lookup :: Decodes(lookup[id])
  }

  /** Resolution against a single table of transactions. */
  function ResolveIn(ctx: Context, txs: map<Txid, StoredTx>, satpoint: SatPoint): (r: Result<string, Error>)
    ensures var op := satpoint.outpoint;
            r.Ok? <==> op.txid in txs && txs[op.txid].Decodes? && op.vout as int < |txs[op.txid].tx.outputs|
    ensures var op := satpoint.outpoint;
            r.Ok? ==> r.value == ctx.ownerKeyOf(txs[op.txid].tx.outputs[op.vout])
    ensures var op := satpoint.outpoint;
            r.Err? ==> r.error == (if op.txid !in txs then OwnerUnresolved(op)
                                   else if txs[op.txid].Undecodable? then TxUndecodable(op.txid)
                                   else VoutOutOfRange(op))
  {
    var op := satpoint.outpoint;
    if op.txid !in txs then Err(OwnerUnresolved(op))
    else match txs[op.txid]
      case Undecodable => Err(TxUndecodable(op.txid))
      case Decodes(tx) => OwnerOfOutput(ctx, tx, op)
  }

  /** Looking in the block first and the persisted table second is
      resolution against the persisted table overridden by the block. */
  lemma ResolveOwnerVisible(ctx: Context, lookup: map<Txid, Transaction>, stored: map<Txid, StoredTx>, satpoint: SatPoint)
    ensures ResolveOwner(ctx, lookup, stored, satpoint) == ResolveIn(ctx, Visible(lookup, stored), satpoint)
  {
  }

  // ---------------------------------------------------------------------------
  // Claims and transfers
  // ---------------------------------------------------------------------------

  /** `after` is `before` with `entry` written for its number: the primary
      row, the inscription pointing at the number, the number added to its
      owner's set, and nothing else changed. */
  ghost predicate Claimed(before: Tables, after: Tables, entry: Entry) {
    var n := entry.number;
    && after.primary.Keys == before.primary.Keys + {n}
    && after.primary[n] == entry
    && (forall m :: m in before.primary && m != n ==> after.primary[m] == before.primary[m])
    && after.reverse.Keys == before.reverse.Keys + {entry.inscriptionId}
    && after.reverse[entry.inscriptionId] == n
    && (forall id :: id in before.reverse && id != entry.inscriptionId ==> after.reverse[id] == before.reverse[id])
    && (forall k :: Multimap.Values(after.owners, k)
                    == if k == entry.owner then Multimap.Values(before.owners, k) + {n}
                       else Multimap.Values(before.owners, k))
    && (Multimap.Normalized(before.owners) ==> Multimap.Normalized(after.owners))
  }

  /** `after` is `before` with claim `n` handed to `owner` by transaction
      `txid` in the block of `ctx`: the entry keeps its number and
      inscription, the number moves between the two owners' sets, and
      nothing else changes. */
  ghost predicate Moved(before: Tables, after: Tables, n: u32, owner: string, txid: Txid, ctx: Context) {
    && n in before.primary
    && var prev := before.primary[n];
    && prev.owner != owner
    && after.primary.Keys == before.primary.Keys
    && after.primary[n] == Entry(prev.number, prev.inscriptionId, txid, owner, ctx.blockHeight, ctx.blockTime)
    && (forall m :: m in before.primary && m != n ==> after.primary[m] == before.primary[m])
    && after.reverse == before.reverse
    && (forall k :: Multimap.Values(after.owners, k)
                    == if k == prev.owner then Multimap.Values(before.owners, k) - {n}
                       else if k == owner then Multimap.Values(before.owners, k) + {n}
                       else Multimap.Values(before.owners, k))
    && (Multimap.Normalized(before.owners) ==> Multimap.Normalized(after.owners))
  }

  /** A creation event: the inscription claims its number when the text is
      a claim, the number is not above the block height, the number is
      still free and the inscription lands in an output. */
  function HandleClaim(
    ctx: Context, lookup: map<Txid, Transaction>, stored: map<Txid, StoredTx>,
    t: Tables, txid: Txid, op: InscriptionOp, inscription: Inscription
  ): (r: Result<Tables, Error>)
    ensures var n := ParseNumber(inscription);
            n.None? || n.value > ctx.blockHeight || n.value in t.primary || op.newSatpoint.None?
            ==> r == Ok(t)
    ensures var n := ParseNumber(inscription);
            n.Some? && n.value <= ctx.blockHeight && n.value !in t.primary && op.newSatpoint.Some? ==>
              var owner := ResolveOwner(ctx, lookup, stored, op.newSatpoint.value);
              && (owner.Err? ==> r == Err(owner.error))
              && (owner.Ok? ==> r.Ok? && Claimed(t, r.value,
                    Entry(n.value, op.inscriptionId, txid, owner.value, ctx.blockHeight, ctx.blockTime)))
  {
    match ParseNumber(inscription)
    case None => Ok(t)
    case Some(number) =>
      if number > ctx.blockHeight then Ok(t)
      else if number in t.primary then Ok(t)
      else
        match op.newSatpoint
        case None => Ok(t)
        case Some(satpoint) =>
          var owner :- ResolveOwner(ctx, lookup, stored, satpoint);
          Ok(WriteClaim(t, Entry(number, op.inscriptionId, txid, owner, ctx.blockHeight, ctx.blockTime)))
  }

  /** The three writes of a claim. */
  function WriteClaim(t: Tables, entry: Entry): (r: Tables)
    ensures Claimed(t, r, entry)
  {
    Tables(
      t.primary[entry.number := entry],
      t.reverse[entry.inscriptionId := entry.number],
      Multimap.Insert(t.owners, entry.owner, entry.number))
  }

  /** A transfer event: the claim made by the inscription, if any, follows
      it to the owner of the output it lands in. */
  function HandleTransfer(
    ctx: Context, lookup: map<Txid, Transaction>, stored: map<Txid, StoredTx>,
    t: Tables, txid: Txid, op: InscriptionOp
  ): (r: Result<Tables, Error>)
    ensures op.inscriptionId !in t.reverse ==> r == Ok(t)
    ensures op.inscriptionId in t.reverse && t.reverse[op.inscriptionId] !in t.primary
            ==> r == Err(EntryMissing(t.reverse[op.inscriptionId]))
    ensures op.inscriptionId in t.reverse && t.reverse[op.inscriptionId] in t.primary ==>
              var n := t.reverse[op.inscriptionId];
              && (op.newSatpoint.None? ==> r == Ok(t))
              && (op.newSatpoint.Some? ==>
                    var owner := ResolveOwner(ctx, lookup, stored, op.newSatpoint.value);
                    && (owner.Err? ==> r == Err(owner.error))
                    && (owner.Ok? && owner.value == t.primary[n].owner ==> r == Ok(t))
                    && (owner.Ok? && owner.value != t.primary[n].owner ==>
                          r.Ok? && Moved(t, r.value, n, owner.value, txid, ctx)))
  {
    if op.inscriptionId !in t.reverse then Ok(t)
    else
      var number := t.reverse[op.inscriptionId];
      if number !in t.primary then Err(EntryMissing(number))
      else
        var entry := t.primary[number];
        match op.newSatpoint
        case None => Ok(t)
        case Some(satpoint) =>
          var newOwner :- ResolveOwner(ctx, lookup, stored, satpoint);
          if entry.owner == newOwner then Ok(t)
          else Ok(WriteTransfer(ctx, t, txid, number, newOwner))
  }

  /** The writes of a change of owner: the entry rewritten, the number moved
      from the old owner's set to the new owner's. */
  function WriteTransfer(ctx: Context, t: Tables, txid: Txid, number: u32, newOwner: string): (r: Tables)
    requires number in t.primary && t.primary[number].owner != newOwner
    ensures Moved(t, r, number, newOwner, txid, ctx)
  {
    var entry := t.primary[number];
    var moved := entry.(owner := newOwner, txid := txid, blockHeight := ctx.blockHeight, blockTime := ctx.blockTime);
    Tables(
      t.primary[number := moved],
      t.reverse,
      Multimap.Insert(Multimap.Remove(t.owners, entry.owner, number), newOwner, number))
  }

  /** Routes an event to claim or transfer handling. */
  function ApplyOp(
    ctx: Context, lookup: map<Txid, Transaction>, stored: map<Txid, StoredTx>,
    t: Tables, txid: Txid, op: InscriptionOp
  ): Result<Tables, Error> {
    match op.action
    case New(inscription) => HandleClaim(ctx, lookup, stored, t, txid, op, inscription)
    case Transfer => HandleTransfer(ctx, lookup, stored, t, txid, op)
  }
}
