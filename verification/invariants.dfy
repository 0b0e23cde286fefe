/** What the updater keeps true of the three claim tables across claims and
    transfers, on the path where the block is indexed without error. */
module PepemapInvariants {
  import opened Wrappers
  import opened Primitives
  import opened Pepemap
  import opened PepemapUpdater
  import Multimap

  /** The tables agree with one another: each entry is stored under its own
      number, each claimed number sits in its owner's set and no other, the
      owner sets hold nothing else, and each inscription points at an entry
      it made. */
  ghost predicate Consistent(t: Tables) {
    Multimap.Normalized(t.owners) && SelfKeyed(t) && InOwnerSet(t) && SetsHoldClaims(t) && ReverseSound(t)
  }

  ghost predicate SelfKeyed(t: Tables) {
    forall n :: n in t.primary ==> t.primary[n].number == n
  }

  ghost predicate InOwnerSet(t: Tables) {
    forall n :: n in t.primary ==> n in Multimap.Values(t.owners, t.primary[n].owner)
  }

  ghost predicate SetsHoldClaims(t: Tables) {
    forall k, n :: n in Multimap.Values(t.owners, k) ==> n in t.primary && t.primary[n].owner == k
  }

  ghost predicate ReverseSound(t: Tables) {
    forall id :: id in t.reverse ==> t.reverse[id] in t.primary && t.primary[t.reverse[id]].inscriptionId == id
  }

  /** Every claim was made at a height no lower than its number, and every
      recorded change happened by height `h`. */
  ghost predicate HeightBounded(t: Tables, h: u32) {
    forall n :: n in t.primary ==> n <= t.primary[n].blockHeight <= h
  }

  /** `after` keeps every claim of `before`, with its number and inscription,
      and every inscription `before` knows. */
  ghost predicate Extends(before: Tables, after: Tables) {
    && (forall n :: n in before.primary ==>
          && n in after.primary
          && after.primary[n].number == before.primary[n].number
          && after.primary[n].inscriptionId == before.primary[n].inscriptionId)
    && before.reverse.Keys <= after.reverse.Keys
  }

  function Empty(): (t: Tables)
    ensures Consistent(t) && HeightBounded(t, 0)
  {
    Tables(map[], map[], map[])
  }

  // ---------------------------------------------------------------------------
  // What consistency says about the owner table
  // ---------------------------------------------------------------------------

  /** A claimed number is in exactly one owner set: its entry's owner's. */
  lemma OwnerSetExact(t: Tables, n: u32, k: string)
    requires Consistent(t) && n in t.primary
    ensures n in Multimap.Values(t.owners, k) <==> k == t.primary[n].owner
  {
  }

  /** The numbers `primary` records as held by `k`. */
  function ClaimsOf(primary: map<u32, Entry>, k: string): set<u32> {
    set n | n in primary && primary[n].owner == k
  }

  /** The owner table each primary table determines. */
  function OwnersOf(primary: map<u32, Entry>): (owners: map<string, set<u32>>)
    ensures forall k :: Multimap.Values(owners, k) == ClaimsOf(primary, k)
    ensures Multimap.Normalized(owners)
  {
    var keys := set n | n in primary :: primary[n].owner;
    forall k | k !in keys ensures ClaimsOf(primary, k) == {} {
      forall n | n in primary ensures primary[n].owner != k {
        assert primary[n].owner in keys;
      }
    }
    forall k | k in keys ensures ClaimsOf(primary, k) != {} {
      var n :| n in primary && primary[n].owner == k;
      assert n in ClaimsOf(primary, k);
    }
    map k | k in keys :: ClaimsOf(primary, k)
  }

  /** In consistent tables the owner table is exactly the one the primary
      table determines: it holds no information of its own. */
  lemma OwnersDetermined(t: Tables)
    requires Consistent(t)
    ensures t.owners == OwnersOf(t.primary)
  {
    var d := OwnersOf(t.primary);
    forall k ensures Multimap.Values(t.owners, k) == Multimap.Values(d, k) {
      forall n ensures n in Multimap.Values(t.owners, k) <==> n in Multimap.Values(d, k) {
        if n in t.primary {
          OwnerSetExact(t, n, k);
        }
      }
    }
    Multimap.Extensional(t.owners, d);
  }

  // ---------------------------------------------------------------------------
  // One event
  // ---------------------------------------------------------------------------

  lemma ClaimedSetsHoldClaims(t: Tables, t': Tables, entry: Entry)
    requires SetsHoldClaims(t) && Claimed(t, t', entry) && entry.number !in t.primary
    ensures SetsHoldClaims(t')
  {
    forall k, m | m in Multimap.Values(t'.owners, k)
      ensures m in t'.primary && t'.primary[m].owner == k
    {
      if m != entry.number {
        assert m in Multimap.Values(t.owners, k);
      }
    }
  }

  lemma ClaimedReverseSound(t: Tables, t': Tables, entry: Entry)
    requires ReverseSound(t) && Claimed(t, t', entry) && entry.number !in t.primary
    ensures ReverseSound(t')
  {
    forall id | id in t'.reverse
      ensures t'.reverse[id] in t'.primary && t'.primary[t'.reverse[id]].inscriptionId == id
    {
      if id != entry.inscriptionId {
        assert t.reverse[id] in t.primary;
      }
    }
  }

  /** Writing a claim for a free number keeps the tables consistent. */
  lemma ClaimedConsistent(t: Tables, t': Tables, entry: Entry)
    requires Consistent(t) && Claimed(t, t', entry)
    requires entry.number !in t.primary
    ensures Consistent(t')
  {
    assert SelfKeyed(t') && InOwnerSet(t');
    ClaimedSetsHoldClaims(t, t', entry);
    ClaimedReverseSound(t, t', entry);
  }

  lemma MovedInOwnerSet(t: Tables, t': Tables, n: u32, owner: string, txid: Txid, ctx: Context)
    requires InOwnerSet(t) && SetsHoldClaims(t) && Moved(t, t', n, owner, txid, ctx)
    ensures InOwnerSet(t')
  {
    forall m | m in t'.primary ensures m in Multimap.Values(t'.owners, t'.primary[m].owner) {
      if m != n {
        assert m in Multimap.Values(t.owners, t.primary[m].owner);
      }
    }
  }

  lemma MovedSetsHoldClaims(t: Tables, t': Tables, n: u32, owner: string, txid: Txid, ctx: Context)
    requires SetsHoldClaims(t) && Moved(t, t', n, owner, txid, ctx)
    ensures SetsHoldClaims(t')
  {
    forall k, m | m in Multimap.Values(t'.owners, k)
      ensures m in t'.primary && t'.primary[m].owner == k
    {
      if m != n {
        assert m in Multimap.Values(t.owners, k);
      }
    }
  }

  /** Moving a claim to a new owner keeps the tables consistent. */
  lemma MovedConsistent(t: Tables, t': Tables, n: u32, owner: string, txid: Txid, ctx: Context)
    requires Consistent(t) && Moved(t, t', n, owner, txid, ctx)
    ensures Consistent(t')
  {
    assert SelfKeyed(t') && ReverseSound(t');
    MovedInOwnerSet(t, t', n, owner, txid, ctx);
    MovedSetsHoldClaims(t, t', n, owner, txid, ctx);
  }

  /** A claim event keeps the tables consistent. */
  lemma HandleClaimConsistent(
    ctx: Context, lookup: map<Txid, Transaction>, stored: map<Txid, StoredTx>,
    t: Tables, txid: Txid, op: InscriptionOp, inscription: Inscription
  )
    requires Consistent(t)
    requires HandleClaim(ctx, lookup, stored, t, txid, op, inscription).Ok?
    ensures Consistent(HandleClaim(ctx, lookup, stored, t, txid, op, inscription).value)
  {
    var r := HandleClaim(ctx, lookup, stored, t, txid, op, inscription);
    var n := ParseNumber(inscription);
    if n.Some? && n.value <= ctx.blockHeight && n.value !in t.primary && op.newSatpoint.Some? {
      var owner := ResolveOwner(ctx, lookup, stored, op.newSatpoint.value);
      var entry := Entry(n.value, op.inscriptionId, txid, owner.value, ctx.blockHeight, ctx.blockTime);
      ClaimedConsistent(t, r.value, entry);
    }
  }

  /** A transfer event keeps the tables consistent. */
  lemma HandleTransferConsistent(
    ctx: Context, lookup: map<Txid, Transaction>, stored: map<Txid, StoredTx>,
    t: Tables, txid: Txid, op: InscriptionOp
  )
    requires Consistent(t)
    requires HandleTransfer(ctx, lookup, stored, t, txid, op).Ok?
    ensures Consistent(HandleTransfer(ctx, lookup, stored, t, txid, op).value)
  {
    var r := HandleTransfer(ctx, lookup, stored, t, txid, op);
    if op.inscriptionId in t.reverse && op.newSatpoint.Some? {
      var n := t.reverse[op.inscriptionId];
      var owner := ResolveOwner(ctx, lookup, stored, op.newSatpoint.value);
      if owner.value != t.primary[n].owner {
        MovedConsistent(t, r.value, n, owner.value, txid, ctx);
      }
    }
  }

  /** In consistent tables every inscription the reverse table knows has
      its entry, so a transfer never fails for want of one. */
  lemma TransferFindsEntry(
    ctx: Context, lookup: map<Txid, Transaction>, stored: map<Txid, StoredTx>,
    t: Tables, txid: Txid, op: InscriptionOp
  )
    requires Consistent(t)
    ensures !HandleTransfer(ctx, lookup, stored, t, txid, op).Err?
            || !HandleTransfer(ctx, lookup, stored, t, txid, op).error.EntryMissing?
  {
  }

  lemma ApplyOpConsistent(
    ctx: Context, lookup: map<Txid, Transaction>, stored: map<Txid, StoredTx>,
    t: Tables, txid: Txid, op: InscriptionOp
  )
    requires Consistent(t) && ApplyOp(ctx, lookup, stored, t, txid, op).Ok?
    ensures Consistent(ApplyOp(ctx, lookup, stored, t, txid, op).value)
  {
    match op.action
    case New(inscription) => HandleClaimConsistent(ctx, lookup, stored, t, txid, op, inscription);
    case Transfer => HandleTransferConsistent(ctx, lookup, stored, t, txid, op);
  }

  /** A recorded claim made at a height no lower than its number keeps
      claim heights bounded by that height. */
  lemma ClaimedHeightBounded(t: Tables, t': Tables, entry: Entry, h: u32)
    requires Claimed(t, t', entry) && HeightBounded(t, h)
    requires h <= entry.blockHeight && entry.number <= entry.blockHeight
    ensures HeightBounded(t', entry.blockHeight)
  {
    forall m | m in t'.primary ensures m <= t'.primary[m].blockHeight <= entry.blockHeight {
      if m != entry.number {
        assert t'.primary[m] == t.primary[m];
      }
    }
  }

  /** A move stamps the entry with the current height and leaves the other
      entries alone, so claim heights stay bounded. */
  lemma MovedHeightBounded(t: Tables, t': Tables, n: u32, owner: string, txid: Txid, ctx: Context, h: u32)
    requires Moved(t, t', n, owner, txid, ctx) && HeightBounded(t, h) && h <= ctx.blockHeight
    ensures HeightBounded(t', ctx.blockHeight)
  {
    forall m | m in t'.primary ensures m <= t'.primary[m].blockHeight <= ctx.blockHeight {
      if m != n {
        assert t'.primary[m] == t.primary[m];
      } else {
        assert m <= t.primary[m].blockHeight <= h;
      }
    }
  }

  lemma HandleClaimHeightBounded(
    ctx: Context, lookup: map<Txid, Transaction>, stored: map<Txid, StoredTx>,
    t: Tables, txid: Txid, op: InscriptionOp, inscription: Inscription, h: u32
  )
    requires HeightBounded(t, h) && h <= ctx.blockHeight
    requires HandleClaim(ctx, lookup, stored, t, txid, op, inscription).Ok?
    ensures HeightBounded(HandleClaim(ctx, lookup, stored, t, txid, op, inscription).value, ctx.blockHeight)
  {
    var r := HandleClaim(ctx, lookup, stored, t, txid, op, inscription);
    var n := ParseNumber(inscription);
    if n.Some? && n.value <= ctx.blockHeight && n.value !in t.primary && op.newSatpoint.Some? {
      var owner := ResolveOwner(ctx, lookup, stored, op.newSatpoint.value);
      var entry := Entry(n.value, op.inscriptionId, txid, owner.value, ctx.blockHeight, ctx.blockTime);
      ClaimedHeightBounded(t, r.value, entry, h);
    } else {
      HeightBoundedMono(t, h, ctx.blockHeight);
    }
  }

  lemma HandleTransferHeightBounded(
    ctx: Context, lookup: map<Txid, Transaction>, stored: map<Txid, StoredTx>,
    t: Tables, txid: Txid, op: InscriptionOp, h: u32
  )
    requires HeightBounded(t, h) && h <= ctx.blockHeight
    requires HandleTransfer(ctx, lookup, stored, t, txid, op).Ok?
    ensures HeightBounded(HandleTransfer(ctx, lookup, stored, t, txid, op).value, ctx.blockHeight)
  {
    var r := HandleTransfer(ctx, lookup, stored, t, txid, op);
    if op.inscriptionId in t.reverse && op.newSatpoint.Some? {
      var n := t.reverse[op.inscriptionId];
      var owner := ResolveOwner(ctx, lookup, stored, op.newSatpoint.value);
      if owner.value != t.primary[n].owner {
        MovedHeightBounded(t, r.value, n, owner.value, txid, ctx, h);
        return;
      }
    }
    HeightBoundedMono(t, h, ctx.blockHeight);
  }

  /** An event made in the block of `ctx` keeps claim heights bounded,
      when that block is not below the previous ones. */
  lemma ApplyOpHeightBounded(
    ctx: Context, lookup: map<Txid, Transaction>, stored: map<Txid, StoredTx>,
    t: Tables, txid: Txid, op: InscriptionOp, h: u32
  )
    requires HeightBounded(t, h) && h <= ctx.blockHeight
    requires ApplyOp(ctx, lookup, stored, t, txid, op).Ok?
    ensures HeightBounded(ApplyOp(ctx, lookup, stored, t, txid, op).value, ctx.blockHeight)
  {
    match op.action
    case New(inscription) => HandleClaimHeightBounded(ctx, lookup, stored, t, txid, op, inscription, h);
    case Transfer => HandleTransferHeightBounded(ctx, lookup, stored, t, txid, op, h);
  }

  lemma HandleClaimExtends(
    ctx: Context, lookup: map<Txid, Transaction>, stored: map<Txid, StoredTx>,
    t: Tables, txid: Txid, op: InscriptionOp, inscription: Inscription
  )
    requires HandleClaim(ctx, lookup, stored, t, txid, op, inscription).Ok?
    ensures Extends(t, HandleClaim(ctx, lookup, stored, t, txid, op, inscription).value)
  {
    var r := HandleClaim(ctx, lookup, stored, t, txid, op, inscription);
    var n := ParseNumber(inscription);
    if n.Some? && n.value <= ctx.blockHeight && n.value !in t.primary && op.newSatpoint.Some? {
      var owner := ResolveOwner(ctx, lookup, stored, op.newSatpoint.value);
      var entry := Entry(n.value, op.inscriptionId, txid, owner.value, ctx.blockHeight, ctx.blockTime);
      assert Claimed(t, r.value, entry);
      forall m | m in t.primary ensures m in r.value.primary && r.value.primary[m] == t.primary[m] {
      }
    }
  }

  lemma HandleTransferExtends(
    ctx: Context, lookup: map<Txid, Transaction>, stored: map<Txid, StoredTx>,
    t: Tables, txid: Txid, op: InscriptionOp
  )
    requires HandleTransfer(ctx, lookup, stored, t, txid, op).Ok?
    ensures Extends(t, HandleTransfer(ctx, lookup, stored, t, txid, op).value)
  {
    var r := HandleTransfer(ctx, lookup, stored, t, txid, op);
    if op.inscriptionId in t.reverse && op.newSatpoint.Some? {
      var n := t.reverse[op.inscriptionId];
      var owner := ResolveOwner(ctx, lookup, stored, op.newSatpoint.value);
      if owner.value != t.primary[n].owner {
        assert Moved(t, r.value, n, owner.value, txid, ctx);
      }
    }
  }

  /** An event never drops a claim nor changes its number or inscription. */
  lemma ApplyOpExtends(
    ctx: Context, lookup: map<Txid, Transaction>, stored: map<Txid, StoredTx>,
    t: Tables, txid: Txid, op: InscriptionOp
  )
    requires ApplyOp(ctx, lookup, stored, t, txid, op).Ok?
    ensures Extends(t, ApplyOp(ctx, lookup, stored, t, txid, op).value)
  {
    match op.action
    case New(inscription) => HandleClaimExtends(ctx, lookup, stored, t, txid, op, inscription);
    case Transfer => HandleTransferExtends(ctx, lookup, stored, t, txid, op);
  }

  /** `Extends` composes. */
  lemma ExtendsTrans(a: Tables, b: Tables, c: Tables)
    requires Extends(a, b) && Extends(b, c)
    ensures Extends(a, c)
  {
  }

  /** A bound on claim heights holds of any larger height too. */
  lemma HeightBoundedMono(t: Tables, h: u32, h': u32)
    requires HeightBounded(t, h) && h <= h'
    ensures HeightBounded(t, h')
  {
  }

  // ---------------------------------------------------------------------------
  // Order of events
  // ---------------------------------------------------------------------------

  /** Once a number is claimed, any later claim of it, in this block or a
      later one, leaves the tables exactly as they are. */
  lemma FirstClaimWins(
    ctx: Context, lookup: map<Txid, Transaction>, stored: map<Txid, StoredTx>,
    t: Tables, txid: Txid, op: InscriptionOp, n: u32
  )
    requires n in t.primary
    requires op.action.New? && ParseNumber(op.action.inscription) == Some(n)
    ensures ApplyOp(ctx, lookup, stored, t, txid, op) == Ok(t)
  {
  }

  /** A claim followed, in a later event, by a transfer of its inscription
      to an output with a different owner key: the entry keeps its number
      and inscription, takes the new owner, transaction, height and time,
      and the number leaves the first owner's set for the second's, which is
      then the only set holding it. */
  lemma ClaimThenTransfer(
    ctx1: Context, lookup1: map<Txid, Transaction>, ctx2: Context, lookup2: map<Txid, Transaction>,
    stored: map<Txid, StoredTx>, t: Tables,
    txid1: Txid, inscription: Inscription, sp1: SatPoint, txid2: Txid, sp2: SatPoint,
    id: InscriptionId, n: u32, k1: string, k2: string
  ) returns (t1: Tables, t2: Tables)
    requires Consistent(t)
    requires ParseNumber(inscription) == Some(n) && n <= ctx1.blockHeight && n !in t.primary
    requires ResolveOwner(ctx1, lookup1, stored, sp1) == Ok(k1)
    requires ResolveOwner(ctx2, lookup2, stored, sp2) == Ok(k2) && k2 != k1
    ensures HandleClaim(ctx1, lookup1, stored, t, txid1, InscriptionOp(New(inscription), id, Some(sp1)), inscription) == Ok(t1)
    ensures n in t1.primary && t1.primary[n] == Entry(n, id, txid1, k1, ctx1.blockHeight, ctx1.blockTime)
    ensures n in Multimap.Values(t1.owners, k1)
    ensures HandleTransfer(ctx2, lookup2, stored, t1, txid2, InscriptionOp(Transfer, id, Some(sp2))) == Ok(t2)
    ensures n in t2.primary && t2.primary[n] == Entry(n, id, txid2, k2, ctx2.blockHeight, ctx2.blockTime)
    ensures id in t2.reverse && t2.reverse[id] == n
    ensures n !in Multimap.Values(t2.owners, k1) && n in Multimap.Values(t2.owners, k2)
    ensures forall k :: n in Multimap.Values(t2.owners, k) <==> k == k2
  {
    t1 := ClaimStep(ctx1, lookup1, stored, t, txid1, inscription, sp1, id, n, k1);
    ClaimedConsistent(t, t1, Entry(n, id, txid1, k1, ctx1.blockHeight, ctx1.blockTime));
    t2 := TransferStep(ctx2, lookup2, stored, t1, txid2, sp2, id, n, k2);
    MovedConsistent(t1, t2, n, k2, txid2, ctx2);
    forall k ensures n in Multimap.Values(t2.owners, k) <==> k == k2 {
      OwnerSetExact(t2, n, k);
    }
  }

  /** A claim that passes every guard and resolves its owner is recorded. */
  lemma ClaimStep(
    ctx: Context, lookup: map<Txid, Transaction>, stored: map<Txid, StoredTx>, t: Tables,
    txid: Txid, inscription: Inscription, sp: SatPoint, id: InscriptionId, n: u32, k: string
  ) returns (t1: Tables)
    requires ParseNumber(inscription) == Some(n) && n <= ctx.blockHeight && n !in t.primary
    requires ResolveOwner(ctx, lookup, stored, sp) == Ok(k)
    ensures HandleClaim(ctx, lookup, stored, t, txid, InscriptionOp(New(inscription), id, Some(sp)), inscription) == Ok(t1)
    ensures Claimed(t, t1, Entry(n, id, txid, k, ctx.blockHeight, ctx.blockTime))
  {
    t1 := HandleClaim(ctx, lookup, stored, t, txid, InscriptionOp(New(inscription), id, Some(sp)), inscription).value;
  }

  /** A transfer of a recorded claim to a different owner moves it. */
  lemma TransferStep(
    ctx: Context, lookup: map<Txid, Transaction>, stored: map<Txid, StoredTx>, t: Tables,
    txid: Txid, sp: SatPoint, id: InscriptionId, n: u32, k: string
  ) returns (t2: Tables)
    requires id in t.reverse && t.reverse[id] == n && n in t.primary && t.primary[n].owner != k
    requires ResolveOwner(ctx, lookup, stored, sp) == Ok(k)
    ensures HandleTransfer(ctx, lookup, stored, t, txid, InscriptionOp(Transfer, id, Some(sp))) == Ok(t2)
    ensures Moved(t, t2, n, k, txid, ctx)
  {
    t2 := HandleTransfer(ctx, lookup, stored, t, txid, InscriptionOp(Transfer, id, Some(sp))).value;
  }
}
