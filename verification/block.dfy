/** Indexing a whole block (`index_block`): the events of each transaction
    in turn, each handled by `ApplyOp`, the first error abandoning the
    block. The invariants of the tables are part of the contracts here. */
module PepemapBlock {
  import opened Wrappers
  import opened Pepemap
  import opened PepemapUpdater
  import opened PepemapInvariants

  /** What a successful run of events in the block of `ctx` keeps from `t`
      to `t'`: consistency, claim heights bounded by the block's height, and
      every claim with its number and inscription. */
  ghost predicate Kept(t: Tables, t': Tables, ctx: Context) {
    && (Consistent(t) ==> Consistent(t'))
    && (HeightBounded(t, ctx.blockHeight) ==> HeightBounded(t', ctx.blockHeight))
    && Extends(t, t')
  }

  /** A single successful event keeps the invariants. */
  lemma ApplyOpKept(
    ctx: Context, lookup: map<Txid, Transaction>, stored: map<Txid, StoredTx>,
    t: Tables, txid: Txid, op: InscriptionOp
  )
    requires ApplyOp(ctx, lookup, stored, t, txid, op).Ok?
    ensures Kept(t, ApplyOp(ctx, lookup, stored, t, txid, op).value, ctx)
  {
    if Consistent(t) {
      ApplyOpConsistent(ctx, lookup, stored, t, txid, op);
    }
    if HeightBounded(t, ctx.blockHeight) {
      ApplyOpHeightBounded(ctx, lookup, stored, t, txid, op, ctx.blockHeight);
    }
    ApplyOpExtends(ctx, lookup, stored, t, txid, op);
  }

  /** What `t` to `t1` keeps, followed by what `t1` to a successful `r`
      keeps, is kept from `t` to `r`. */
  lemma KeptThen(t: Tables, t1: Tables, r: Result<Tables, Error>, ctx: Context)
    requires Kept(t, t1, ctx) && (r.Ok? ==> Kept(t1, r.value, ctx))
    ensures r.Ok? ==> Kept(t, r.value, ctx)
  {
    if r.Ok? {
      ExtendsTrans(t, t1, r.value);
    }
  }

  /** The events of one transaction, in order, stopping at the first error.
      A successful run keeps the invariants. */
  function ApplyOps(
    ctx: Context, lookup: map<Txid, Transaction>, stored: map<Txid, StoredTx>,
    t: Tables, txid: Txid, ops: seq<InscriptionOp>
  ): (r: Result<Tables, Error>)
    ensures r.Ok? ==> Kept(t, r.value, ctx)
    decreases |ops|
  {
    if ops == [] then Ok(t)
    else
      var t1 :- ApplyOp(ctx, lookup, stored, t, txid, ops[0]);
      var r := ApplyOps(ctx, lookup, stored, t1, txid, ops[1..]);
      ApplyOpKept(ctx, lookup, stored, t, txid, ops[0]);
      KeptThen(t, t1, r, ctx);
      r
  }

  /** Every transaction's events, transaction by transaction, stopping at
      the first error. A successful run keeps the invariants. */
  function ApplyAll(
    ctx: Context, lookup: map<Txid, Transaction>, stored: map<Txid, StoredTx>,
    t: Tables, operations: seq<(Txid, seq<InscriptionOp>)>
  ): (r: Result<Tables, Error>)
    ensures r.Ok? ==> Kept(t, r.value, ctx)
    decreases |operations|
  {
    if operations == [] then Ok(t)
    else
      var t1 :- ApplyOps(ctx, lookup, stored, t, operations[0].0, operations[0].1);
      var r := ApplyAll(ctx, lookup, stored, t1, operations[1..]);
      KeptThen(t, t1, r, ctx);
      r
  }

  /** No events leave the tables as they are, and a single event is exactly
      `ApplyOp`: with `ApplyOpsAppend`, the events are applied one by one,
      in order. */
  lemma ApplyOpsSingle(
    ctx: Context, lookup: map<Txid, Transaction>, stored: map<Txid, StoredTx>,
    t: Tables, txid: Txid, op: InscriptionOp
  )
    ensures ApplyOps(ctx, lookup, stored, t, txid, []) == Ok(t)
    ensures ApplyOps(ctx, lookup, stored, t, txid, [op]) == ApplyOp(ctx, lookup, stored, t, txid, op)
  {
  }

  /** No transactions leave the tables as they are, and a single
      transaction is exactly `ApplyOps` on its events: with
      `ApplyAllAppend`, the transactions are handled one by one, in order. */
  lemma ApplyAllSingle(
    ctx: Context, lookup: map<Txid, Transaction>, stored: map<Txid, StoredTx>,
    t: Tables, txid: Txid, ops: seq<InscriptionOp>
  )
    ensures ApplyAll(ctx, lookup, stored, t, []) == Ok(t)
    ensures ApplyAll(ctx, lookup, stored, t, [(txid, ops)]) == ApplyOps(ctx, lookup, stored, t, txid, ops)
  {
  }

  /** Indexes one block: its transactions are looked up by id, and the
      events are applied in the order given. On `Err` the caller discards
      every write of the block. A successful block keeps the tables
      consistent, keeps every claim's number no higher than the height it
      was recorded at, and never drops a claim or changes its number or
      inscription. Tables bounded by an earlier height are bounded by this
      block's (`HeightBoundedMono`), so the bound carries over when blocks
      come in order of height. */
  function IndexBlock(
    ctx: Context, txdata: seq<(Transaction, Txid)>, stored: map<Txid, StoredTx>,
    t: Tables, operations: seq<(Txid, seq<InscriptionOp>)>
  ): (r: Result<Tables, Error>)
    ensures r.Ok? && Consistent(t) ==> Consistent(r.value)
    ensures r.Ok? && HeightBounded(t, ctx.blockHeight) ==> HeightBounded(r.value, ctx.blockHeight)
    ensures r.Ok? ==> Extends(t, r.value)
  {
    ApplyAll(ctx, TxLookup(txdata), stored, t, operations)
  }

  /** Applying two runs of events one after the other is applying their
      concatenation: the fold stops at the first error. */
  lemma {:induction false} ApplyOpsAppend(
    ctx: Context, lookup: map<Txid, Transaction>, stored: map<Txid, StoredTx>,
    t: Tables, txid: Txid, a: seq<InscriptionOp>, b: seq<InscriptionOp>
  )
    ensures ApplyOps(ctx, lookup, stored, t, txid, a + b)
            == match ApplyOps(ctx, lookup, stored, t, txid, a)
               case Err(e) => Err(e)
               case Ok(t') => ApplyOps(ctx, lookup, stored, t', txid, b)
    decreases |a|
  {
    if a == [] {
      assert a + b == b;
    } else {
      assert (a + b)[0] == a[0];
      assert (a + b)[1..] == a[1..] + b;
      match ApplyOp(ctx, lookup, stored, t, txid, a[0])
      case Err(e) =>
      case Ok(t1) => ApplyOpsAppend(ctx, lookup, stored, t1, txid, a[1..], b);
    }
  }

  /** The same for the transactions of a block. */
  lemma {:induction false} ApplyAllAppend(
    ctx: Context, lookup: map<Txid, Transaction>, stored: map<Txid, StoredTx>,
    t: Tables, a: seq<(Txid, seq<InscriptionOp>)>, b: seq<(Txid, seq<InscriptionOp>)>
  )
    ensures ApplyAll(ctx, lookup, stored, t, a + b)
            == match ApplyAll(ctx, lookup, stored, t, a)
               case Err(e) => Err(e)
               case Ok(t') => ApplyAll(ctx, lookup, stored, t', b)
    decreases |a|
  {
    if a == [] {
      assert a + b == b;
    } else {
      assert (a + b)[0] == a[0];
      assert (a + b)[1..] == a[1..] + b;
      match ApplyOps(ctx, lookup, stored, t, a[0].0, a[0].1)
      case Err(e) =>
      case Ok(t1) => ApplyAllAppend(ctx, lookup, stored, t1, a[1..], b);
    }
  }
}
