# Pepemap claim index, modelled in Dafny

The pepemap index assigns each number in 1..=5,000,000 to the first inscription whose text claims it in the form `<number>.pepemap`. Ownership of the claim then follows that inscription from output to output. This project models the two parts that implement it:

- **The claim parser** (`parse_number`, src/pepemap/mod.rs). Its pieces of the Rust standard library are modelled in `rust_str.dfy`: `str::trim` with Unicode white space, `str::rsplit_once`, `str::eq_ignore_ascii_case`, `str::trim_start_matches` and `u32::from_str`. The parser itself is in `pepemap.dfy`. The unit tests, the range boundaries and the malformed shapes are in `pepemap_cases.dfy`.
- **The index updater** (`PepemapUpdater`, src/index/updater/pepemap_updater.rs). It is a state machine over three tables:
  - `primary`: claim number to entry.
  - `reverse`: inscription id to claim number.
  - `owners`: owner key to its set of claim numbers. This is a multimap, modelled in `multimap.dfy`.

  The updater's steps are pure functions returning a `Result`: `ResolveOwner`, `HandleClaim` and `HandleTransfer` (`updater.dfy`).

  `invariants.dfy` proves that each successful step keeps the tables mutually consistent. It also proves that a claim's number never exceeds the height of the block it was made in, that claims are never dropped, and that the first successful claim of a number wins.

  `block.dfy` holds `IndexBlock`, a fold over an explicit sequence of events. The contracts of the fold carry those invariants across a whole block.

The parser is characterised exactly. `ClaimTextAccepted` and `ClaimTextShape` together say that a text is accepted with value `n` if and only if it is made of these pieces, in order:
1. whitespace;
2. an optional `+`;
3. decimal digits whose value is `n`;
4. whitespace;
5. a dot;
6. `pepemap` in any ASCII case;
7. whitespace.

`n` must also lie in 1..=5,000,000.

## Model

| member | source | states |
|---|---|---|
| RustStr.WhitespaceTable | src/pepemap/mod.rs:20 | `IsWhitespace`, the white space `str::trim` removes, holds of exactly the 25 code points Unicode lists with the `White_Space` property |
| RustStr.Trim | src/pepemap/mod.rs:20 | the result has no white space at either end and is a contiguous piece of the input with only white space cut away before and after it |
| RustStr.TrimPadded | src/pepemap/mod.rs:20 | trimming a trimmed text padded by white space on both sides gives back exactly that text; with `Trim`'s contract, `Trim(s) == x` holds exactly when `s` is `x` padded by white space |
| RustStr.TrimOfPadded | src/pepemap/mod.rs:30 | extra white space around a text never changes what trimming leaves |
| RustStr.TrimStartMatches | src/pepemap/mod.rs:26 | the result is the input with exactly its leading run of the given character removed |
| RustStr.RSplitOnce | src/pepemap/mod.rs:25 | there is no split exactly when the character does not occur; otherwise the input is `before + [c] + after` with no `c` in `after`, i.e. the split is at the last occurrence |
| RustStr.RSplitOnceUnique | src/pepemap/mod.rs:25 | conversely, `a + [c] + b` with no `c` in `b` always splits into `(a, b)` |
| RustStr.EqIgnoreAsciiCaseLowercase | src/pepemap/mod.rs:26 | the suffix comparison holds exactly when the two texts are equal after ASCII lowercasing, the meaning Rust documents for `eq_ignore_ascii_case` |
| RustStr.AccumulateDigits | src/pepemap/mod.rs:35 | the digit loop with its per-step overflow check succeeds exactly when every character is a digit and the value fits in 32 bits, and then returns that value |
| RustStr.FromStrU32 | src/pepemap/mod.rs:35 | `u32::from_str` succeeds exactly on an optional single `+` followed by one or more ASCII digits whose value is at most 2^32-1, and returns that value |
| RustStr.FromStrU32OfNumeral | src/pepemap/mod.rs:35 | an optional `+` and a run of digits parse to the digits' value when it fits in 32 bits and fail otherwise |
| RustStr.DecimalString | src/pepemap/mod.rs:35 | the decimal rendering of `n` is a non-empty run of digits, without a leading zero unless `n` is 0, whose value is `n` |
| RustStr.FromStrU32OfDecimal | src/pepemap/mod.rs:35 | round trip: parsing the decimal rendering of any `n` that fits in 32 bits gives `n`, with or without a `+` and any number of leading zeros |
| Pepemap.SuffixStem | src/pepemap/mod.rs:5 | the suffix constant with its leading dots trimmed is `pepemap` |
| Pepemap.ParseNumber | src/pepemap/mod.rs:18-41 | an accepted number lies in 1..=MAX_NUMBER, and only a present body that is valid UTF-8 can be accepted |
| Pepemap.ParseClaimText | src/pepemap/mod.rs:20-28 | an accepted text lies in range and its trimmed form contains a dot |
| Pepemap.ParseNumberPart | src/pepemap/mod.rs:30-40 | the number part is accepted exactly when its trimmed form is a `u32` literal with value in 1..=MAX_NUMBER, and the result is that value |
| Pepemap.SplitAtLastDot | src/pepemap/mod.rs:25-28 | once the trimmed text's last dot is located, a suffix that does not match ignoring ASCII case means rejection, and a matching one hands the decision to the number part before the dot |
| Pepemap.BodyPaddingIgnored | src/pepemap/mod.rs:20 | white space around the whole body never changes the outcome |
| Pepemap.NumberPaddingIgnored | src/pepemap/mod.rs:30 | white space around the number part never changes its outcome |
| Pepemap.NumberPartAccepted | src/pepemap/mod.rs:30-40 | an optional `+`, digits and trailing white space are read as the digits' value exactly when it is in range |
| Pepemap.NumberPartShape | src/pepemap/mod.rs:30-35 | every accepted number part is white space, an optional `+`, digits with the accepted value, white space |
| Pepemap.ClaimTextTrimmed | src/pepemap/mod.rs:20 | trimming a claim-shaped text leaves exactly `<number part>.<suffix>` |
| Pepemap.ClaimTextAccepted | src/pepemap/mod.rs:18-41 | every claim-shaped text is accepted with its digits' value when that value is in 1..=MAX_NUMBER and rejected otherwise |
| Pepemap.ClaimTextShape | src/pepemap/mod.rs:18-41 | conversely, every accepted text is claim-shaped with the accepted number as its digits' value |
| PepemapCases.UppercaseSuffixAccepted | src/pepemap/mod.rs:48-50 | `123.PEPEMAP` gives 123 |
| PepemapCases.SurroundingWhitespaceIgnored | src/pepemap/mod.rs:54-56 | ` 456 .pepemap \n` gives 456 |
| PepemapCases.OtherSuffixRejected | src/pepemap/mod.rs:60-62 | `789.invalid` gives nothing |
| PepemapCases.LeadingZerosAccepted | src/pepemap/mod.rs:35 | `007.pepemap` gives 7 |
| PepemapCases.PlusSignAccepted | src/pepemap/mod.rs:35 | `+5.pepemap` gives 5 |
| PepemapCases.TopAccepted | src/pepemap/mod.rs:36-40 | `5000000.pepemap` gives 5,000,000 |
| PepemapCases.AboveTopRejected | src/pepemap/mod.rs:36-38 | `5000001.pepemap` gives nothing |
| PepemapCases.ZeroRejected | src/pepemap/mod.rs:36-38 | `0.pepemap` gives nothing |
| PepemapCases.EmptyNumberRejected | src/pepemap/mod.rs:30-33 | `.pepemap` gives nothing |
| PepemapCases.SecondDotRejected | src/pepemap/mod.rs:25-35 | `1.2.pepemap` gives nothing: the split is at the last dot and `1.2` is not a `u32` |
| PepemapCases.MinusSignRejected | src/pepemap/mod.rs:35 | `-5.pepemap` gives nothing |
| PepemapCases.NotClaimText | src/pepemap/mod.rs:19-25 | a blank body, a body without a dot, an absent body and a non-UTF-8 body give nothing |
| Multimap.Insert | src/index/updater/pepemap_updater.rs:104-106 | after adding a pair, the key's values gain exactly that value, every other key's values are unchanged, and no key is left without values |
| Multimap.Remove | src/index/updater/pepemap_updater.rs:147-149 | after removing a pair, the key's values lose exactly that value, every other key's values are unchanged, and a key whose last value goes is dropped |
| Multimap.Extensional | src/index/updater/pepemap_updater.rs:18 | two multimap tables without empty keys that hold the same values under every key are equal |
| Multimap.RemoveInsert | src/index/updater/pepemap_updater.rs:147-160 | removing a pair just inserted restores the table, when the pair was absent before |
| Multimap.InsertRemove | src/index/updater/pepemap_updater.rs:147-160 | inserting a pair just removed restores the table, when the pair was present before |
| PepemapUpdater.TxLookup | src/index/updater/pepemap_updater.rs:43-44 | the block's lookup holds exactly the ids listed in the block, each mapped to the last transaction listed under it |
| PepemapUpdater.ResolveOwner | src/index/updater/pepemap_updater.rs:165-193 | a transaction in the block is always used first, and a persisted one that decodes is read the same way: the key of output `vout`'s script, or a failure when `vout` is past the outputs; resolution fails as unresolved exactly when neither the block nor the persisted table has the transaction, and as undecodable exactly when only the persisted table has it and it does not decode |
| PepemapUpdater.Visible | src/index/updater/pepemap_updater.rs:171-187 | the transactions the resolver can see are the persisted ones overridden by the block's, with the block's taking precedence |
| PepemapUpdater.ResolveIn | src/index/updater/pepemap_updater.rs:178-187 | resolution in one table succeeds exactly when the transaction is there, decodes, and has the output, and then gives the key of that output's script; otherwise it names the first of these that fails |
| PepemapUpdater.ResolveOwnerVisible | src/index/updater/pepemap_updater.rs:165-193 | looking in the block first and the persisted table second is the same as resolving in the persisted table overridden by the block |
| PepemapUpdater.HandleClaim | src/index/updater/pepemap_updater.rs:60-109 | no claim text, a number above the block height, a number already claimed, or no destination leaves all three tables unchanged; otherwise a resolution failure is returned unchanged, and a resolved owner yields exactly the three writes of the new entry |
| PepemapUpdater.WriteClaim | src/index/updater/pepemap_updater.rs:90-106 | the claim writes put the entry under its number, point the inscription at it, add the number to the owner's set, and change nothing else |
| PepemapUpdater.HandleTransfer | src/index/updater/pepemap_updater.rs:111-163 | an unknown inscription changes nothing; a known inscription whose number has no entry is an error, raised before the destination is looked at; no destination, or a new owner equal to the current one, changes nothing; a resolution failure is returned unchanged; otherwise the claim moves |
| PepemapUpdater.WriteTransfer | src/index/updater/pepemap_updater.rs:146-160 | the move keeps the entry's number and inscription, sets its owner, txid, height and time, leaves the reverse table and all other entries alone, and moves the number from the old owner's set to the new owner's |
| PepemapInvariants.OwnerSetExact | src/index/updater/pepemap_updater.rs:100-106 | in consistent tables a claimed number is in one owner set only, its entry's owner's |
| PepemapInvariants.OwnersDetermined | src/index/updater/pepemap_updater.rs:100-106 | in consistent tables the owner table is exactly the one the primary table determines |
| PepemapInvariants.ClaimedConsistent | src/index/updater/pepemap_updater.rs:90-106 | writing a claim for a free number keeps the tables consistent |
| PepemapInvariants.MovedConsistent | src/index/updater/pepemap_updater.rs:146-160 | moving a claim to a different owner keeps the tables consistent |
| PepemapInvariants.HandleClaimConsistent | src/index/updater/pepemap_updater.rs:60-109 | a successful claim event keeps the tables consistent |
| PepemapInvariants.HandleTransferConsistent | src/index/updater/pepemap_updater.rs:111-163 | a successful transfer event keeps the tables consistent |
| PepemapInvariants.TransferFindsEntry | src/index/updater/pepemap_updater.rs:126-129 | in consistent tables a transfer never fails for a missing entry |
| PepemapInvariants.ApplyOpConsistent | src/index/updater/pepemap_updater.rs:48-53 | a successful event of either kind keeps the tables consistent |
| PepemapInvariants.ApplyOpHeightBounded | src/index/updater/pepemap_updater.rs:72-75 | a successful event keeps every claim's number no higher than its entry's height, when blocks come in order of height |
| PepemapInvariants.ApplyOpExtends | src/index/updater/pepemap_updater.rs:146-157 | a successful event never drops a claim or an inscription, nor changes a claim's number or inscription |
| PepemapInvariants.FirstClaimWins | src/index/updater/pepemap_updater.rs:77-80 | once a number is claimed, any later claim of it, in the same block or a later one, leaves all three tables unchanged |
| PepemapInvariants.ClaimThenTransfer | src/index/updater/pepemap_updater.rs:87-160 | from consistent tables, a claim then a transfer of its inscription to a different owner leaves the entry with the new owner, txid, height and time, and the number in the new owner's set and in no other |
| PepemapBlock.ApplyOps | src/index/updater/pepemap_updater.rs:47-54 | a transaction's events applied in order without error keep the tables consistent, keep claim heights within the block's height, and never drop a claim or change its number or inscription |
| PepemapBlock.ApplyAll | src/index/updater/pepemap_updater.rs:46-55 | the same across all the transactions of a block |
| PepemapBlock.IndexBlock | src/index/updater/pepemap_updater.rs:37-58 | indexing a block without error keeps the tables consistent, keeps every claim's number no higher than the block's height, and never drops a claim or changes its number or inscription |
| PepemapBlock.ApplyOpsSingle | src/index/updater/pepemap_updater.rs:47-54 | a transaction without events leaves the tables as they are, and one with a single event is exactly that event's handling |
| PepemapBlock.ApplyAllSingle | src/index/updater/pepemap_updater.rs:46-55 | a block without transactions leaves the tables as they are, and one with a single transaction is exactly the handling of its events |
| PepemapBlock.ApplyOpsAppend | src/index/updater/pepemap_updater.rs:47-54 | a transaction's events are applied in order: running two lists one after the other equals running their concatenation, stopping at the first error |
| PepemapBlock.ApplyAllAppend | src/index/updater/pepemap_updater.rs:46-57 | the same for the transactions of a block |

## Left out

- `bincode` serialisation of entries (src/index/updater/pepemap_updater.rs:99, 130, 156). The primary table stores the `Entry` datatype directly, so a failed decoding of a stored entry is not modelled.
- Errors of the storage engine (the `?` on every table `get`, `insert` and `remove`). The redb tables are immutable maps, and a multimap is a map to sets with no empty sets.
- `ScriptKey::from_script` and the network (src/index/updater/pepemap_updater.rs:175, 186). These are foreign code. They are folded into the function `Context.ownerKeyOf`, on which nothing is assumed.
- `consensus::encode::deserialize` of stored transactions (src/index/updater/pepemap_updater.rs:182). A stored row either decodes to a transaction (`Decodes`) or it does not (`Undecodable`), and the latter gives `Err(TxUndecodable)`.
- The panic of `tx.output[vout]` (src/index/updater/pepemap_updater.rs:172, 183). The source indexes without a check, which panics when `vout` is out of range. The model returns `Err(VoutOutOfRange)` from `OwnerOfOutput` instead, so the block is abandoned in both cases.
- The iteration order of the events (src/index/updater/pepemap_updater.rs:46). The source iterates a `HashMap` in unspecified order. `IndexBlock` takes the order as its input, and nothing is claimed about other orders.
- On `Err` the source has already written part of the block, and its caller discards the whole write. The model returns only the error, and every invariant is stated for the `Ok` path.
- `PepemapUpdater::new` only stores the table handles.
- The offset inside the output (`SatPoint.offset`) is carried but never read, as in the source.
- The bytes of the inscription body are abstracted to `Body`: either their UTF-8 decoding, or the fact that they do not decode.
- src/templates/rare.rs holds a data wrapper for rendering, with no logic.
- Signs in the number part: `u32::from_str` (src/pepemap/mod.rs:35) accepts one leading `+`, so `+5.pepemap` is a claim of 5 (`PepemapCases.PlusSignAccepted`), and the model does the same.
- Pepemap.ParseNumber: the suffix comparison is modelled character by character on decoded text. The source compares bytes; the two agree because `pepemap` is ASCII.
