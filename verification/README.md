# Verified model of a private-rent provider

The repository holds a provider daemon written in Go, whose decisions are made by event loops, and a
Rust crate with a bid-bound escrow, threshold committees and a shielded close. This project models the
decisions of both and proves what holds of them on every input, every run and every interleaving.

- **Event loops.** A loop is a `State`, an `Event` per `select` case and a `Step`; a case on a nil
  channel, or on a result nobody will send, leaves the state alone. Work spawned off the loop is a
  one-shot completion whose result comes with the event. `Exec` folds a list of events, so a statement
  about `Exec` is about every run. The class beside it updates its fields in place, and each of its
  methods is proved to take the object from one state to the next.
- **Escrow, pool, books, contract.** Operations are functions on values, and the classes whose methods
  change the fields are proved against them, including what stays unchanged when an operation fails.
- **Foreign code.** Hashes, signatures, attestation, note commitments, the proof verifier and the
  inventory's capacity check are function parameters or arbitrary results. No hash into 32 bytes is
  injective, so nothing assumes one: a result that needs it asks that the hash keeps apart the finitely
  many preimages it compares (`CollisionFreeOn`), or concludes that two named inputs collide
  (`MerklePath.Collides`). The hypothesis can be met: by some hash for any fixed preimages that are no
  more than there are digests (`Bytes.CollisionFreeOnCanBeMet`), and also where digests are hashed again,
  so that the preimages depend on the hash (`Bytes.CollisionFreeInLayers`, and for the two places where
  that happens `Committee.QuorumPreimagesCanBeMet` and `EscrowCell.PayoutPreimagesCanBeMet`).
- **Widths.** `u16`, `u64` and the 32-bit position are explicit: wrapping, truncating casts, checked
  and saturating arithmetic appear as in the code. Byte-valued exclusive or uses `bv8`.

Where the code does not do what one would expect, the model follows the code and the exact condition is
proved:

- `LeaseBook.AccessIff`: the lease bearer is admitted next to the session bearer, as
  `crate/src/access.rs:161-167` does; `crate/src/access_derive.rs:45-48` expects a refusal.
- `TaggedHash.ThirtyTwoByteTagsCollide`: the bound of 32 bytes on tags cannot be relaxed.
- `BidAskPir.FetchRow`: the fetch is right exactly when the mask byte at the index is 0 or 1, or the
  row is all zero; `BidAskPir.QueryPair`: the unit-vector guard is dead code.
- `ShieldedClose.ProviderPaidWithoutRefundIff`: the two-spend close is not atomic; with the whole note
  earned, or a leftover equal to the fee, the first spend is sent and the close then fails.
- `Settlement.AuthorisationReusableIff`: a spend authorisation is not tied to the receipt it pays; what
  else it can pay, and a pool in which it pays twice.
- `EscrowCell.SecondSettlementIff`, `EscrowCell.PayoutsApartIff`: a cell is not tied to one ask, and the
  provider's receipt does not name the cell, so one cell can be settled twice
  (`CellHistory.CellSettledTwice`) and two can block each other (`CellHistory.CellsBlockEachOther`).
- `CellHistory.EarnedOverRuns`: a receipt counts as often as it is passed, and a witness overwrites what
  receipts added.
- `Hostnames.NothingWithheldIff`: reserving lower-cases names and preparing a transfer does not
  (`provider/cluster/hostname.go:342-356`, `387-391`), so a name prepared with a capital letter is
  withheld from the reservation it was prepared for.
- `ThresholdPool.InnerFieldsUnchecked`: inner identifiers and digests in a quorum are not looked at.
- `Inventory.OvercommitReachable`: leased-IP admission is sound exactly when the addresses of the leases
  found at start-up fit the machine word they are summed in.
- `Inventory.CrashReachableIff`: with an IP client, a deployment event before the first inventory
  re-opens reservations while the inventory is still nil, and the next request crashes the service.
- `Manifest.RepublishedIsCurrentIff`, `Manifest.SupersededManifestRepublished`: a completed fetch may
  publish a manifest of a superseded version.
- `Order.OutstandingBidClosedIff`, `Order.UnreadBidIsNotClosed`: a bid transaction in flight is closed
  at exit only for a lost lease, and an unread existing bid never is.
- `Accrual.PackingIdentifies`, `ContractEscrow.InstancesIdentify`: proof instances forget the top two
  bits of each digest.
- `Base64.DecodedTextIsEncodingIff`: the decoder also accepts texts that no encoder produces: exactly
  those with padding before the last group or with leftover bits set.

## Model

| member | source | states |
|---|---|---|
| TaggedHash.PreimageInjective | crate/src/lib.rs:93-103 | for all printable tags shorter than 32 bytes and all part lists, equal preimages force equal tag and equal parts |
| TaggedHash.ThirtyTwoByteTagsCollide | crate/src/lib.rs:93-103 | with a 32-byte printable tag two different tag and part lists share a preimage, so the bound is tight |
| TaggedHash.EncodePartsInjective | crate/src/lib.rs:97-101 | length-prefixed part lists are uniquely decodable |
| TaggedHash.TaggedDigestBinds | crate/src/lib.rs:93-103 | unless the two preimages collide, a tagged digest determines tag and parts |
| TaggedHash.Hash | crate/src/lib.rs:93-103 | the incrementally fed hasher digests exactly the preimage layout |
| TaggedHash.GoHash | provider/pirgate/envelope.go:82-95 | the Go encoder feeds the same bytes, so both sides agree on every digest |
| TaggedHash.PutUint64 | provider/pirgate/envelope.go:87-91 | byte-by-byte shifting fills the buffer with the little-endian value |
| TaggedHash.TagsInDomain | crate/src/committee.rs:286-315 | the eight tags of the operations modelled here lie in the domain on which the preimage is injective |
| MerklePath.MerklePathAt | crate/src/zcash_escrow.rs:1259-1308 | fails exactly on a bad position or an unparsable leaf; otherwise folding the leaf with the path gives the anchor, which for at most 2^32 leaves is the root of the full depth-32 tree padded with empty leaves |
| MerklePath.NextLevel | crate/src/zcash_escrow.rs:1279-1294 | one round of pairing keeps the compressed level equal to the tree's nodes, with everything right of it empty |
| MerklePath.ParseLeaves | crate/src/zcash_escrow.rs:1268-1275 | every leaf parses, or the first that does not is an error |
| MerklePath.FoldReachesNode | crate/src/zcash_escrow.rs:1295-1307 | folding a sibling path from any level arrives at the ancestor node |
| MerklePath.TruncatedPositionFoldsAlike | crate/src/zcash_escrow.rs:1303-1306 | casting the position to 32 bits does not change the fold |
| MerklePath.NodeIsFullTree | crate/src/zcash_escrow.rs:1259-1308 | bottom-up nodes are the roots of the top-down full trees over the matching leaves |
| MerklePath.SameAnchorAtDepth | crate/src/zcash_escrow.rs:1259-1308 | at any depth all positions fold to the one root of the padded full tree |
| MerklePath.SameAnchorForEveryPosition | crate/src/zcash_escrow.rs:1259-1308 | the same at depth 32 with the truncated position |
| MerklePath.AnchorBindsLeafAndPath | crate/src/zcash_escrow.rs:1295-1307 | an anchor authenticates the leaf and the whole path, or the two folds exhibit a collision of the node hash |
| ShieldedClose.BuildSpendTx | crate/src/zcash_escrow.rs:1457-1596 | the builder filled step by step yields the spend to the given payee that the value layout prescribes, or its error |
| ShieldedClose.FillFromNote | crate/src/zcash_escrow.rs:1503-1559 | the branch that pays payee, change and fee from the note |
| ShieldedClose.FillWithCoin | crate/src/zcash_escrow.rs:1560-1595 | the branch that pays payee and change from the note and the fee from a miner's coin |
| ShieldedClose.LayoutSplitsValue | crate/src/zcash_escrow.rs:1502-1596 | note in = outputs + fee, or note in = outputs and coin = fee + transparent change, for every fee rule |
| ShieldedClose.LayoutPays | crate/src/zcash_escrow.rs:1502-1596 | a laid-out spend pays its payee the amount, the group its change, and nobody else |
| ShieldedClose.UnbalancedIff | crate/src/zcash_escrow.rs:1560-1596 | a laid-out spend is refused as unbalanced exactly when adding the coin change moves the fee |
| ShieldedClose.Zip317NeverUnbalanced | crate/src/zcash_escrow.rs:1560-1596 | under ZIP 317 that never happens |
| ShieldedClose.SpendOpenedMeaning | crate/src/zcash_escrow.rs:933-1011 | a spend balances, consumes the whole note, pays its payee exactly the amount unless it drains the note, the group exactly its change, and nobody else |
| ShieldedClose.CoinOnlyWhenNeeded | crate/src/zcash_escrow.rs:950-1011 | a miner's coin pays exactly when the note cannot |
| ShieldedClose.Zip317SpendIff | crate/src/zcash_escrow.rs:933-1011 | exactly when a ZIP 317 spend succeeds, and what change it leaves |
| ShieldedClose.CloseSplitsNote | crate/src/zcash_escrow.rs:667-713 | a successful close pays the provider exactly what was earned, by the first spend alone, and the tenant the rest less only the fees the note paid, by the second alone, which consumes the change of the first and leaves none |
| ShieldedClose.CloseSucceedsIff | crate/src/zcash_escrow.rs:667-713 | exactly when a two-spend close goes through under ZIP 317 |
| ShieldedClose.ProviderPaidWithoutRefundIff | crate/src/zcash_escrow.rs:667-713 | exactly when a close fails with the provider's spend already sent |
| ShieldedClose.FullyEarnedNoteFails | crate/src/zcash_escrow.rs:667-713 | a concrete note, wholly earned, for which that happens |
| ShieldedClose.StallRecordedIff | crate/src/zcash_escrow.rs:322-385 | a stall is recorded exactly for a threshold group's own note short of signers that covers the quote; the quote is the height span times the rate |
| ShieldedClose.RecordedStallNeverPays | crate/src/zcash_escrow.rs:284-320 | a recorded stall never pays itself, splits its note exactly, closes nothing with the signers it was recorded with, and closes for the quote otherwise |
| ShieldedClose.StallIdBinds | crate/src/zcash_escrow.rs:363-385 | the id of a stall record names all of it, unless two preimages collide |
| ShieldedClose.ChallengeNeverSetsEarned | crate/src/zcash_escrow.rs:284-320 | whatever a challenge claims, it never pays, and closes only its own note for exactly the height span times the rate |
| Accrual.ProductCheckIff | crate/src/accrual.rs:186-208 | the Pallas-field check accepts exactly when duration * rate = earned over the integers |
| Accrual.FMeaning | crate/src/accrual.rs:210-224 | `f` is the height span times the rate and fails exactly on a zero rate, an empty window or overflow |
| Accrual.PackedFits | crate/src/accrual.rs:63-71 | a packed digest is always a canonical field element |
| Accrual.InstancesArePacked | crate/src/accrual.rs:73-96 | the canonical encoding of a packed element is the packed bytes |
| Accrual.VerifyWitnessIff | crate/src/accrual.rs:334-378 | a witness verifies exactly when its numbers are what `f` fixes, the headers differ and the commitment is that of its terms, written out |
| Accrual.CommittedAccrualVerifies | crate/src/accrual.rs:258-291 | exactly when committing succeeds, and that every committed accrual verifies with earned = (close - open) * rate |
| Accrual.CommitmentFixesWitness | crate/src/accrual.rs:230-256 | two witnesses that verify under one commitment agree in every term and header, and so in what was earned, unless the commitment functions collide on the argument lists written out |
| Accrual.PackingIdentifies | crate/src/accrual.rs:63-71 | two digests share an instance exactly when they agree outside the top two bits |
| EscrowCell.EscrowCellObject.AccrueWitness | crate/src/escrow.rs:207-224 | accrues to the verified witness amount within the deposit, or changes nothing |
| EscrowCell.EscrowCellObject.AccrueWork | crate/src/escrow.rs:252-282 | adds the checked sum of bound receipts for this bid, or changes nothing |
| EscrowCell.SumWork | crate/src/escrow.rs:259-270 | the checked sum of bound, nonzero receipts for the bid, or the first error |
| EscrowCell.EscrowCellObject.CloseCell | crate/src/escrow.rs:284-328 | closes cell and lease together with the exact grant, keeping the cell invariant, or changes neither |
| EscrowCell.SettleClose | crate/src/escrow.rs:392-414 | both payouts reach book and pool, or neither does |
| EscrowCell.PayOut | crate/src/escrow.rs:392-414 | one payout on the clones: skipped when zero, refused without an authorisation, otherwise paid in full or not at all |
| EscrowCell.OpenStartsCell | crate/src/escrow.rs:168-205 | an opened cell satisfies the invariant |
| EscrowCell.OpensIff | crate/src/escrow.rs:168-205 | exactly when a cell opens, and with what |
| EscrowCell.CellIdBinds | crate/src/escrow.rs:182-193 | equal ids mean equal deposit, bid and members, unless the preimages collide |
| EscrowCell.WitnessAccruesIff | crate/src/escrow.rs:207-224 | exactly when a witness accrues, and what it leaves |
| EscrowCell.PublicFixesEarned | crate/src/escrow.rs:207-224 | one accepted public value fixes what is earned, in whichever cell, barring a collision |
| CellHistory.WorkAccruesIff | crate/src/escrow.rs:252-281 | exactly when receipts accrue: each bound work for this bid, all of it within the deposit |
| EscrowCell.CellRunInvariant | crate/src/escrow.rs:207-328 | in every run earned <= deposit, earnings are backed, the close record and grant are exact, and a closed cell never changes |
| EscrowCell.CloseMeaning | crate/src/escrow.rs:284-355 | close fails exactly on an override, a closed cell or an unknown lease; otherwise the lease is dead, earned + remainder = deposit, intents, grant and public view agree and only the resolver may sign |
| EscrowCell.SettlePaysTheDeposit | crate/src/escrow.rs:392-414 | a settlement debits exactly the deposit and books exactly the nonzero payouts |
| EscrowCell.SettleAtMostOnce | crate/src/escrow.rs:392-414 | a second settlement of the same cell and ask fails against every later book and every pool |
| EscrowCell.SettleUnderOtherAskIff | crate/src/escrow.rs:374-414 | exactly when a settled cell can be settled again with the same authorisations under another ask |
| EscrowCell.SettleIff | crate/src/escrow.rs:392-414 | exactly when a closed cell settles: nonempty ask, covered deposit, each nonzero payout authorised, payout digests unpaid and apart |
| EscrowCell.SecondSettlementIff | crate/src/escrow.rs:374-414 | after one settlement any other, of any cell under any ask, succeeds exactly when it would have before, the pool held both deposits and no payout digest is shared |
| EscrowCell.PayoutsApartIff | crate/src/escrow.rs:374-390 | barring collisions among what is hashed, exactly when two cells share no payout digest, in terms of asks, bids, ids and amounts |
| EscrowCell.EqualEarningsBlock | crate/src/escrow.rs:374-414 | in particular, of two cells with the same bid and earnings, settling one under an ask keeps the other from ever being settled under it |
| CellHistory.CellSettledTwice | crate/src/escrow.rs:392-414 | a cell reached by a run, a pool and one authorisation: settled under two asks, the pool pays the deposit twice |
| CellHistory.CellsBlockEachOther | crate/src/escrow.rs:374-414 | two cells with different ids, each settleable and both covered by the pool: settling one blocks the other |
| CellHistory.EarnedOverRuns | crate/src/escrow.rs:207-281 | in every run earned is the last accepted witness amount plus all receipts accepted since, and exceeds what the distinct receipts come to exactly when one was passed twice |
| CellHistory.RepeatsIff | crate/src/escrow.rs:252-281 | counting each receipt once falls short exactly when some receipt occurs twice |
| CellHistory.ReceiptCountsTwice | crate/src/escrow.rs:252-281 | one receipt passed twice in a call counts twice |
| EscrowCell.ApplySettleAgrees | crate/src/escrow.rs:392-414 | the ledger's settlement leaves the book and pool that settling computes |
| EscrowCell.LedgerRunInvariant | crate/src/escrow.rs:392-414 | every interleaving of credits, payments and settlements keeps the ledger invariant |
| EscrowCell.LedgerConservation | crate/src/frost_pool.rs:94-262 | from a new pool: credited notes are distinct and are the spent notes, no digest is paid twice, balance + paid <= credited, with equality while the credits fit in 64 bits |
| ThresholdPool.FrostThresholdPool.DebitAuthorized | crate/src/frost_pool.rs:197-208 | debits exactly an authorised, matching, covered amount; otherwise nothing changes |
| ThresholdPool.FrostThresholdPool.CreditDepositZap1 | crate/src/frost_pool.rs:235-262 | credits a fresh proven note once, saturating; otherwise nothing changes |
| ThresholdPool.SpendAuthorisedIff | crate/src/frost_pool.rs:166-193 | exactly what authorising a spend checks: group, note, amount, a quorum of the pool's committee under its recomputed digest, the bound bid, the signature |
| ThresholdPool.QuorumOkIff | crate/src/frost_pool.rs:138-164 | exactly when a quorum is accepted, with the digest written out |
| ThresholdPool.DebitIff | crate/src/frost_pool.rs:197-208 | exactly when a debit goes through, and what it leaves |
| ThresholdPool.CreditIff | crate/src/frost_pool.rs:235-262 | exactly when a deposit is credited, and what it leaves |
| ThresholdPool.AuthorisedSpendIsSound | crate/src/frost_pool.rs:166-193 | an authorised spend has a sound quorum behind it |
| LedgerHistory.EveryMoveAuthorised | crate/src/frost_pool.rs:166-262 | over every interleaving each payment and each credit was made by an operation of the run that carried an authorisation good for it, and each credit a proven deposit |
| ThresholdPool.AcceptedQuorumIsSound | crate/src/frost_pool.rs:138-164 | an accepted quorum names at least the outer threshold of distinct inner committees, each with its own threshold of distinct, enrolled, attested seats with distinct signers, despite the u16 casts |
| ThresholdPool.InnerFieldsUnchecked | crate/src/frost_pool.rs:138-164 | inner identifiers and inner digests of a quorum do not influence acceptance |
| ThresholdPool.AcceptedDigestPinsSigners | crate/src/frost_pool.rs:138-164 | two accepted quorums under one digest name the same committees and participants, unless preimages hashed for them collide |
| Settlement.WorkDigestBinds | crate/src/settlement.rs:16-38 | a work digest determines ask, provider and amount, unless the two preimages collide |
| Settlement.SettlementBook.Pay | crate/src/settlement.rs:85-105 | debits the pool and books the digest together, or changes neither |
| Settlement.PayIff | crate/src/settlement.rs:64-105 | exactly when a receipt is paid, and what that leaves |
| Settlement.CreditKeepsLedger | crate/src/frost_pool.rs:235-262 | a credit keeps notes distinct and value conserved up to saturation |
| Settlement.PayKeepsLedger | crate/src/settlement.rs:85-105 | a payment keeps digests distinct and value conserved |
| Settlement.AuthorisationReusableIff | crate/src/settlement.rs:85-105 | an authorisation that paid one receipt pays another exactly when that is bound work of the same amount, unpaid and under another digest, and the pool held the amount twice |
| Settlement.AuthorityIgnoresBalance | crate/src/frost_pool.rs:166-193 | whether a spend is authorised does not depend on the balance |
| Settlement.OneAuthorisationPaysTwice | crate/src/settlement.rs:85-105 | a concrete pool, committee and authorisation that pays two receipts |
| LeaseBook.AcceptAdmits | crate/src/access.rs:155-168 | after a bid is accepted exactly its bearer and a current session bearer get in, after a close the winner alone, and no other lease is touched |
| LeaseBook.Book.CloseLease | crate/src/access.rs:170-181 | closes a known lease and drops its session bearer, or changes nothing |
| LeaseBook.Book.Rotate | crate/src/access.rs:225-238 | replaces the session bearer and returns the unchanged note |
| LeaseBook.AccessIff | crate/src/access.rs:161-168 | who gets in: the lease bearer or the session bearer of a lease that is not closed |
| LeaseBook.SessionAccessIff | crate/src/access.rs:189-248 | exactly when sessions open, rotate and stop, and who has the session afterwards |
| LeaseBook.ClosedLeaseStaysShut | crate/src/access.rs:161-248 | a closed lease admits nobody in any run until a new bid is accepted |
| LeaseBook.SessionNoteNeverChanges | crate/src/access.rs:189-248 | no run swaps or loses the payment note of a session |
| Committee.FormInner | crate/src/committee.rs:75-110 | forms exactly on distinct attested seats with a threshold within the 16-bit size |
| Committee.CheckSeats | crate/src/committee.rs:85-102 | accepts exactly distinct, attested seats |
| Committee.FormOuter | crate/src/committee.rs:181-209 | forms exactly on distinct inner names with a threshold within the 16-bit size |
| Committee.InnerQuorumOf | crate/src/committee.rs:117-160 | the set-based loop computes the quorum that collecting the seats in order defines, with the same first error |
| Committee.OuterQuorumOf | crate/src/committee.rs:228-276 | the same for the outer layer |
| Committee.InnerIdIff | crate/src/committee.rs:286-296 | inner ids are equal when, and unless the preimages collide only when, name, threshold, size and the bag of signers are; seat order is immaterial |
| Committee.OuterIdIff | crate/src/committee.rs:298-315 | the same for outer ids, which also bind the group |
| Committee.OrderedUnique | crate/src/committee.rs:286-315 | sorted arrangements of the same ids are equal, whatever the sort |
| Committee.SortIffSameIds | crate/src/committee.rs:286-315 | sorting identifies exactly the permutations |
| Committee.CollectedSeatsSound | crate/src/committee.rs:117-160 | collected seats are the named, distinct, attested ones with distinct signers |
| Committee.InnerQuorumSound | crate/src/committee.rs:117-160 | an inner quorum meets its threshold with such seats |
| Committee.OuterQuorumSound | crate/src/committee.rs:228-276 | an outer quorum meets its threshold with distinct, sound inner committees |
| Committee.InnerQuorumIff | crate/src/committee.rs:117-160 | exactly when an inner committee gives a quorum |
| Committee.OuterQuorumIff | crate/src/committee.rs:228-276 | exactly when an outer committee gives a quorum, and under which digest, written out |
| Committee.BoundIdsApart | crate/src/committee.rs:211-221 | a committee bound to different pools has different ids, unless the preimages collide |
| Committee.DigestPinsQuorum | crate/src/committee.rs:228-276 | a layered digest pins down, in order, committees and participants, unless preimages hashed for it collide |
| Base64.StdBase64Decode | crate/src/escrow_notice.rs:345-386 | the loop never reads out of range and computes the group-wise decoding |
| Base64.ReadGroup | crate/src/escrow_notice.rs:366-384 | one group of four at an in-range index |
| Base64.FillGroup | crate/src/escrow_notice.rs:350-352 | pads to a multiple of four |
| Base64.DecodeInvertsEncode | crate/src/escrow_notice.rs:345-386 | decoding the encoding of section 4 of RFC 4648, with or without padding, returns every nonempty byte string |
| Base64.BytesRoundTrip | crate/src/escrow_notice.rs:345-386 | the byte-level round trip over all groups |
| Base64.QuantumRoundTrip | crate/src/escrow_notice.rs:366-384 | the round trip of one quantum of one to three bytes |
| Base64.CanonicalIff | crate/src/escrow_notice.rs:363-386 | a padded text that decodes is the encoding of the result exactly when only its last group holds padding and the leftover bits are zero |
| Base64.DecodedTextIsEncodingIff | crate/src/escrow_notice.rs:345-386 | the same for every text the decoder accepts, after trimming and padding |
| Base64.DecodeAlikeIff | crate/src/escrow_notice.rs:345-386 | a text that decodes like a canonical one is that text exactly when it is canonical too |
| Base64.GroupInverse | crate/src/escrow_notice.rs:366-384 | one decoded group encodes back exactly when its leftover bits are zero |
| Base64.LeftoverBitsIgnored | crate/src/escrow_notice.rs:372-382 | two texts that differ in leftover bits decode alike |
| Base64.InnerPaddingAccepted | crate/src/escrow_notice.rs:366-384 | a text with padding inside decodes |
| Base64.EncodedKeyIsNoKey | crate/src/escrow_notice.rs:308-334 | no encoded close key is itself a close key |
| Base64.WrappedCloseAttrNormalises | crate/src/escrow_notice.rs:323-343 | base64-wrapped close attributes with printable values normalise to the plain ones, and plain ones to themselves |
| Base64.NormalisesIff | crate/src/escrow_notice.rs:323-343 | exactly which attributes are rewritten, and to what |
| Base64.BlanksIgnored | crate/src/escrow_notice.rs:346-349 | white space around a text makes no difference |
| BidAskPir.XorRow | crate/src/bid_ask_pir.rs:77-81 | in-place exclusive or of a row |
| BidAskPir.Answer | crate/src/bid_ask_pir.rs:83-92 | the fold of exactly the selected rows |
| BidAskPir.ProviderProxy.Query | crate/src/bid_ask_pir.rs:108-112 | answers and logs only its own vector |
| BidAskPir.FetchRow | crate/src/bid_ask_pir.rs:135-152 | shape errors touch no log; with equal replicas the row is right exactly when the mask byte at the index is 0 or 1 or the row is zero |
| BidAskPir.QueryPair | crate/src/bid_ask_pir.rs:155-166 | yields mask and flipped mask for every well-shaped input; the guard never fires |
| BidAskPir.OnlyIndexSurvives | crate/src/bid_ask_pir.rs:83-133 | queries that agree outside the index cancel everywhere else |
| BidAskPir.OnlyOnesSelect | crate/src/bid_ask_pir.rs:83-92 | only bytes that are exactly 1 select a row |
| BidAskPir.FetchReturnsIndexedRow | crate/src/bid_ask_pir.rs:135-152 | correctness of the fetch for every size, index and mask, both directions |
| BidAskPir.FlipIsInvolution | crate/src/bid_ask_pir.rs:135-166 | flipping the index bit is an involution on masks |
| BidAskPir.ExactlyOneMaskPerView | crate/src/bid_ask_pir.rs:135-166 | every view of the right proxy comes from exactly one mask, whatever the index |
| BidAskPir.ViewsDoNotDependOnIndex | crate/src/bid_ask_pir.rs:135-166 | the views a proxy can see are the same set for every index |
| BidAskPir.HidesIndexAfterFetch | crate/src/bid_ask_pir.rs:61-75 | exactly which masks make the log check fail |
| ContractEscrow.Contract.Open | crate/cw-escrow/src/lib.rs:127-185 | stores a fresh cell under the tagged-hash key, or changes nothing |
| ContractEscrow.Contract.Accrue | crate/cw-escrow/src/lib.rs:206-240 | stores commitment, headers and derived instances and clears the verified flag |
| ContractEscrow.Contract.VerifyAccrualHalo2 | crate/cw-escrow/src/lib.rs:242-303 | sets the verified flag only behind the gate |
| ContractEscrow.Contract.CloseCell | crate/cw-escrow/src/lib.rs:305-352 | closes an accrued cell with the whole deposit as remainder |
| ContractEscrow.StepKeeps | crate/cw-escrow/src/lib.rs:127-352 | every message keeps the storage invariant, all deposits and all closed cells |
| ContractEscrow.OpensIff | crate/cw-escrow/src/lib.rs:127-185 | exactly when a cell is opened, and with what |
| ContractEscrow.AccruesIff | crate/cw-escrow/src/lib.rs:206-240 | exactly when an accrual is stored, and that it replaces the last one unverified |
| ContractEscrow.StepTouchesOne | crate/cw-escrow/src/lib.rs:94-352 | a message touches no cell but its own and a refused one none; a close records the closer |
| ContractEscrow.ContractRunInvariant | crate/cw-escrow/src/lib.rs:127-352 | in every run instances encode the stored commitment and headers, verified means provable for them, closed cells never change |
| ContractEscrow.VerifiedWasProved | crate/cw-escrow/src/lib.rs:206-303 | a verified cell was verified by a message of the run whose proof the verifier accepted for the instances stored now |
| ContractEscrow.GateConditions | crate/cw-escrow/src/lib.rs:242-352 | exactly when verify and close succeed; the checks on stored instances never fire |
| ContractEscrow.GrantShowsDeposit | crate/cw-escrow/src/lib.rs:354-375 | a grant exists exactly for a closed cell and shows earned 0 and remainder = deposit |
| ContractEscrow.InstancesIdentify | crate/cw-escrow/src/lib.rs:45-74 | exactly when two commitments and header pairs share instances |
| ContractEscrow.GrantMatchesInProcess | crate/src/escrow.rs:73-86 | for every run on either side: a closed cell and a contract cell closed under its id with the same closer and accrual show the same view, field by field, unless the two key preimages collide |
| ContractEscrow.SameDealOnBothSides | crate/src/escrow.rs:73-86 | the same deal opened, accrued and closed once on both sides is such a pair of runs |
| ContractEscrow.RunStaysFiled | crate/cw-escrow/src/lib.rs:127-205 | in every run each cell is filed under the key of its own deposit, bid and members |
| ContractEscrow.KeyBindsDeal | crate/cw-escrow/src/lib.rs:186-204 | equal in-process id and contract key force equal deposit, bid and members, unless their preimages collide |
| Hex.RoundTrip | crate/src/lib.rs:105-107 | decoding the hex text returns the bytes |
| Hex.DecodesIff | crate/cw-escrow/src/lib.rs:59-65 | decoding succeeds exactly on even-length hex digits of either case |
| DeploymentManager.Manager.Select | provider/cluster/manager.go:253-342 | one turn of the loop as the state machine prescribes |
| DeploymentManager.Manager.HandleUpdate | provider/cluster/manager.go:178-190 | an update queues behind a deploy, starts one after it, and is ignored otherwise |
| DeploymentManager.Manager.HandleRunResult | provider/cluster/manager.go:276-322 | what a finished deploy or teardown leads to in each phase |
| DeploymentManager.Manager.StartDeploy | provider/cluster/manager.go:389-427 | stops the monitor and launches a deploy of the current version |
| DeploymentManager.Manager.StartTeardown | provider/cluster/manager.go:429-439 | stops the monitor and launches a teardown |
| DeploymentManager.Manager.StartReclaimAttempt | provider/cluster/manager.go:220-234 | starts an attempt only behind the gate and outside teardown |
| DeploymentManager.Manager.FinishReclaimAttempt | provider/cluster/manager.go:236-268 | opens the gate and re-arms or clears the timer unless tearing down |
| DeploymentManager.Manager.Exit | provider/cluster/manager.go:344-356 | waits for the running job and all attempts |
| DeploymentManager.RunManager | provider/cluster/manager.go:192-342 | the loop over any list of events ends in the state of the run |
| DeploymentManager.StepKeepsInv | provider/cluster/manager.go:253-356 | every select case keeps jobs, monitors and reclaim attempts fitting the phase, and teardown once begun |
| DeploymentManager.RunKeepsInv | provider/cluster/manager.go:192-342 | the invariant of every run: phase, result channel, jobs, monitors and reclaim attempts fit together |
| DeploymentManager.NoPanicOneJob | provider/cluster/manager.go:276-356 | neither panic is reachable, at most one deploy or teardown and one reclaim attempt are in flight, and nothing is left behind at the end |
| DeploymentManager.NoUpdateLost | provider/cluster/manager.go:178-322 | deploy-active and deploy-complete mean the last deploy was started after the latest update, and a pending one is started by the next result |
| DeploymentManager.VersionCountsUpdates | provider/cluster/manager.go:269-274 | the version is the number of updates received |
| DeploymentManager.OneLiveMonitor | provider/cluster/manager.go:372-439 | at most one monitor has not been told to stop, and only in deploy-complete |
| DeploymentManager.DeployedIsMonitored | provider/cluster/manager.go:286-297 | in every run a completed deploy has its current monitor live |
| DeploymentManager.TeardownIsFinal | provider/cluster/manager.go:165-342 | from teardown on, no deploy phase and no reclaim attempt |
| DeploymentManager.TeardownRequestIsServed | provider/cluster/manager.go:328-340 | from every running state a teardown request leads into teardown with one under way |
| DeploymentManager.TearingDownIsUnderWay | provider/cluster/manager.go:276-340 | in every run a loop in teardown has one running, or launched by the next result, or by the armed retry timer |
| DeploymentManager.InactiveLeaseIsTornDown | provider/cluster/manager.go:281-284 | an inactive lease is torn down at once in every phase |
| DeploymentManager.LoopEndsIff | provider/cluster/manager.go:256-316 | the loop ends exactly on a shutdown or on the success of a running teardown |
| DeploymentManager.OwedReclaimIsScheduled | provider/cluster/manager.go:220-268 | until a close is broadcast or teardown begins, a deadline always has an attempt in flight or a timer running |
| DeploymentManager.OwedUntilClosed | provider/cluster/manager.go:239-268 | a deadline is owed until an attempt outside teardown reports the close as broadcast |
| DeploymentManager.NoAttemptUnlessOwed | provider/cluster/manager.go:220-268 | in every run attempts and their timer run only while a close is owed |
| DeploymentManager.AttemptsUseLastDeadline | provider/cluster/manager.go:212-263 | in every run an attempt is started for the deadline received last |
| Inventory.CountEndpoints | provider/cluster/inventory.go:1004-1019 | the number of random-port endpoints over all units, in machine arithmetic |
| Inventory.EndpointQuantity | provider/cluster/util/endpoint_quantity.go:8-23 | the number of distinct leased-IP sequence numbers |
| Inventory.LeasedNumbersBound | provider/cluster/util/endpoint_quantity.go:8-23 | that number never exceeds 2^32 |
| Inventory.InventoryService.CountReservedIps | provider/cluster/inventory.go:445-454 | the unconfirmed addresses, summed in machine arithmetic |
| Inventory.AvailableIps | provider/cluster/inventory.go:456-467 | what is left of the pool after use and promises, never negative |
| InventoryHistory.PortsInIs | provider/cluster/inventory.go:1004-1019 | a unit's ports are counted as its random-port endpoints |
| InventoryHistory.PortsAre | provider/cluster/inventory.go:1004-1019 | a group's ports are those of all its units |
| InventoryHistory.LeasedNumbersAre | provider/cluster/util/endpoint_quantity.go:8-23 | a group's leased numbers are those of its leased-IP endpoints |
| InventoryHistory.TotalsAre | provider/cluster/inventory.go:445-454 | deployed reservations hold ports, unconfirmed ones promise addresses |
| Inventory.InventoryService.HandleRequest | provider/cluster/inventory.go:541-585 | the verdict on a request and the list it leaves |
| InventoryHistory.VerdictIff | provider/cluster/inventory.go:541-585 | exactly when a request is granted, and exactly when it is refused for which reason |
| InventoryHistory.HandledExactly | provider/cluster/inventory.go:541-585 | a grant appends one fresh reservation for the request, a refusal changes nothing |
| InventoryHistory.ReserveExactly | provider/cluster/inventory.go:693-694 | a request is looked at only while requests are taken |
| InventoryHistory.EveryReservationTraced | provider/cluster/inventory.go:541-585 | in every run each reservation held was there at the start or was granted by an event whose request the inventory accepted and the address pool could serve |
| Inventory.InventoryService.Find | provider/cluster/inventory.go:654-660 | the first matching reservation |
| InventoryHistory.FirstIs | provider/cluster/inventory.go:654-660 | the entry found is the first of its order and group name |
| Inventory.InventoryService.OnDeployment | provider/cluster/inventory.go:650-690 | only the first match changes, and its ports move with its allocation |
| InventoryHistory.DeploymentMarks | provider/cluster/inventory.go:650-690 | exactly the first match takes the status and its ports move, nothing else changes |
| Inventory.InventoryService.OnUnreserve | provider/cluster/inventory.go:711-737 | removes the first reservation of the order and gives its ports back, or reports it unknown |
| InventoryHistory.UnreserveDrops | provider/cluster/inventory.go:711-737 | exactly the first reservation of the order is dropped and its ports come back |
| Inventory.InventoryService.OnCheckDone | provider/cluster/inventory.go:797-820 | takes over the usage and confirms the reported orders |
| Inventory.InventoryService.MarkConfirmed | provider/cluster/inventory.go:804-813 | for each reported order the first reservation of that order is confirmed |
| Inventory.InventoryService.SnapshotUnconfirmed | provider/cluster/inventory.go:861-873 | what a check asks to confirm |
| Inventory.InventoryService.RunCheck | provider/cluster/inventory.go:875-900 | confirmed are exactly the orders with the expected number of addresses |
| InventoryHistory.SnapshotIff | provider/cluster/inventory.go:861-873 | a check asks about exactly the deployed, unconfirmed reservations |
| InventoryHistory.ReportedIff | provider/cluster/inventory.go:884-897 | an order is reported exactly when the expected number was counted for an item of it |
| InventoryHistory.CheckDoneExactly | provider/cluster/inventory.go:797-820 | what a check's answer, or its failure, does |
| InventoryHistory.ConfirmAllDoes | provider/cluster/inventory.go:804-813 | a reported order has its first reservation confirmed |
| InventoryHistory.ConfirmedWasReported | provider/cluster/inventory.go:797-897 | in every run addresses are confirmed only if a check of the run found the expected number for the order |
| InventoryHistory.CheckCameFrom | provider/cluster/inventory.go:861-873 | in every run a check in flight asks about what was deployed and unconfirmed at an earlier point |
| Inventory.InventoryService.UpdateIps | provider/cluster/inventory.go:621-631 | gates reservations behind a check, or opens them once there is an inventory |
| InventoryHistory.ChecksStart | provider/cluster/inventory.go:621-631 | a deployment event, an inventory and a due tick start a check, and requests wait for it |
| InventoryHistory.GateNeverSticks | provider/cluster/inventory.go:615-631 | in every run, once something came, requests are taken with the check timer running or a check is in flight; without a client they are taken from the first inventory on |
| Inventory.InventoryService.Select | provider/cluster/inventory.go:643-827 | one turn of the loop as the state machine prescribes |
| Inventory.StepTotals | provider/cluster/inventory.go:643-820 | no step disturbs the port account, only a grant adds promises, only a report changes use |
| Inventory.PortsConserved | provider/cluster/inventory.go:652-734 | in every run free ports + ports of allocated reservations = configured quantity modulo the word, and exactly as long as no more is held than configured |
| Inventory.AdmissionWithinIff | provider/cluster/inventory.go:541-585 | an admission leaves in-use + promised within the pool exactly when the promises fitted the word |
| Inventory.AdmittedStaysWithin | provider/cluster/inventory.go:541-585 | after any leased-IP admission in-use + promised <= total until the next usage report |
| Inventory.OvercommitReachable | provider/cluster/inventory.go:445-467 | if the existing leases overflow the word, some run admits beyond the pool |
| Inventory.RunIsGated | provider/cluster/inventory.go:615-631 | with an IP client reserving and checking exclude each other; without one reserving needs an inventory |
| Inventory.NoGrantDuringCheck | provider/cluster/inventory.go:621-631 | no reservation is granted while a usage check is in flight |
| Inventory.CrashReachableIff | provider/cluster/inventory.go:572-631 | before the first inventory a crash is reachable exactly with an IP client and a deployment event seen |
| Inventory.NoCrashAfterInventory | provider/cluster/inventory.go:572-631 | a run that has got its inventory never crashes |
| InventoryHistory.ServiceEndsIff | provider/cluster/inventory.go:572-649 | the service ends exactly on a shutdown, and crashes exactly on a servable request before any inventory |
| Hostnames.HostnameService.Reserve | provider/cluster/hostname.go:136-194 | all or nothing, refused exactly when the can-reserve check refuses, with the store and withheld names it leaves |
| Hostnames.HostnameService.CheckNames | provider/cluster/hostname.go:137-161 | finds a conflict exactly when there is one, and notes withheld and requested names |
| Hostnames.HostnameService.AssignNames | provider/cluster/hostname.go:179-185 | requested names that are not withheld go to the id |
| Hostnames.HostnameService.StaleNames | provider/cluster/hostname.go:163-177 | the id's names that are no longer requested |
| Hostnames.HostnameService.Delete | provider/cluster/hostname.go:187-191 | removes exactly the names it is given |
| Hostnames.HostnameService.Prepare | provider/cluster/hostname.go:93-112 | moves held requested names of the account to the id, or changes nothing |
| Hostnames.HostnameService.CanReserveNames | provider/cluster/hostname.go:204-217 | refuses exactly when another account holds a name |
| Hostnames.HostnameService.Release | provider/cluster/hostname.go:232-243 | removes exactly the id's names |
| Hostnames.HostnameService.LowerNames | provider/cluster/hostname.go:387-400 | the lower-cased names, and a blocked one exactly when there is one |
| Hostnames.HostnameService.ReserveHostnames | provider/cluster/hostname.go:387-436 | reserves the lower-cased names exactly when none is blocked or another account's, and changes nothing otherwise |
| Hostnames.HostnameService.CanReserveHostnames | provider/cluster/hostname.go:451-480 | answers exactly as the reservation would |
| Hostnames.ReserveHoldsRequested | provider/cluster/hostname.go:136-194 | the id ends up with exactly requested minus withheld; other deployments keep exactly theirs |
| Hostnames.NothingWithheldIff | provider/cluster/hostname.go:93-194 | after preparing some names, reserving others withholds nothing exactly when every lower-cased name held elsewhere was prepared in that spelling |
| Hostnames.PreparedReservationIsComplete | provider/cluster/hostname.go:93-194 | after preparing the same lower-case names the reservation is complete |
| Hostnames.CapitalLetterIsWithheld | provider/cluster/hostname.go:342-391 | a name prepared with a capital letter moves nothing and is withheld from the reservation |
| Hostnames.ReleaseFreesExactly | provider/cluster/hostname.go:232-243 | releasing frees one deployment's names and no other's |
| Hostnames.HeldNameKeepsOwner | provider/cluster/hostname.go:93-243 | over every run a name held throughout keeps its account |
| Hostnames.HeldNamesAreLowerCase | provider/cluster/hostname.go:315-436 | over every run from lower-case names, held names are lower-case, and not blocked unless held from the start |
| Manifest.Manager.Select | provider/manifest/manager.go:149-218 | one turn of the loop as the state machine prescribes, and the answer to a request that comes too late |
| Manifest.Manager.MaybeFetchData | provider/manifest/manager.go:234-244 | a fetch is started only when none is in flight and the data is missing or too old |
| Manifest.Manager.ValidateRequests | provider/manifest/manager.go:373-405 | the batch is split, and its first accepted manifest recorded |
| Manifest.Manager.SortRequests | provider/manifest/manager.go:378-397 | each request is rejected in the log or kept for publication |
| Manifest.Manager.ValidateRequest | provider/manifest/manager.go:407-465 | the verdict, with the expected version from the latest update or else the chain |
| ManifestHistory.JudgeIff | provider/manifest/manager.go:379-465 | exactly which verdict validation gives; only a fine document of the expected version is accepted |
| Manifest.Manager.EmitReceivedEvents | provider/manifest/manager.go:338-371 | publishes the latest manifest to every lease and answers all pending, or answers all with no-lease |
| Manifest.Manager.AnswerAll | provider/manifest/manager.go:327-335 | one answer per request, in order |
| Manifest.Manager.FillAllRequests | provider/manifest/manager.go:326-336 | every pending and waiting request gets the answer |
| Manifest.StepPlaces | provider/manifest/manager.go:149-218 | a step creates a place only for the request that arrives in it and loses none |
| Manifest.RunStaysQuiet | provider/manifest/manager.go:149-244 | at every select nothing is pending and waiting requests have a fetch in flight |
| Manifest.EachRequestEndsOnce | provider/manifest/manager.go:149-405 | each request ends at most once, waits only behind a fetch, and by shutdown has ended exactly once |
| Manifest.UncancelledIsAnsweredOnce | provider/manifest/manager.go:149-405 | a request whose context is never found done is answered exactly once by shutdown |
| ManifestHistory.EveryOutcomeHasCause | provider/manifest/manager.go:149-405 | in every run each outcome was decided in a step that gave cause for exactly that verdict |
| Manifest.SuccessMeansPublished | provider/manifest/manager.go:338-405 | success is told only in a step that published to every lease of a nonempty list a manifest of the requester's, expected, version |
| ManifestHistory.StepData | provider/manifest/manager.go:134-214 | which events clear the data, start a fetch, bring data or record a version |
| ManifestHistory.DataIsFresh | provider/manifest/manager.go:134-214 | in every run data in use is what a fetch brought after the last lease change and the last update |
| ManifestHistory.ExpectedIsLastUpdate | provider/manifest/manager.go:430-444 | in every run the expected version is that of the last update, and the chain's only before any |
| ManifestHistory.ManifestWasAccepted | provider/manifest/manager.go:373-405 | in every run each manifest on record was accepted, fine and at the expected version, by an event of the run |
| ManifestHistory.EveryPublicationWasAccepted | provider/manifest/manager.go:338-405 | in every run each publication is of such a manifest and goes to a lease fetched in its step |
| Manifest.OutcomeOrigin | provider/manifest/manager.go:149-218 | every outcome of a run was decided in one step and never altered |
| Manifest.RepublishedIsCurrentIff | provider/manifest/manager.go:338-371 | exactly when what a fetch publishes has the expected version |
| Manifest.SupersededManifestRepublished | provider/manifest/manager.go:166-214 | for every versioning, a run that publishes a manifest of a superseded version |
| Order.OrderLoop.Select | provider/bidengine/order.go:231-471 | one turn of the pipeline, and the cleanup if it was the last |
| Order.OrderLoop.OnQuery | provider/bidengine/order.go:237-270 | what the answer about an existing bid leads to |
| Order.OrderLoop.OnOpenBid | provider/bidengine/order.go:250-270 | an open bid counts as placed, ends the run if stale and arms the timeout otherwise |
| Order.OrderLoop.OnChainEvent | provider/bidengine/order.go:272-336 | lease created, order closed, bid closed |
| Order.OrderLoop.OnGroup | provider/bidengine/order.go:337-353 | group details start the eligibility check or end the run |
| Order.OrderLoop.OnEligible | provider/bidengine/order.go:355-376 | acceptance starts the reservation |
| Order.OrderLoop.OnCluster | provider/bidengine/order.go:378-415 | a granted reservation starts pricing unless a bid exists |
| Order.OrderLoop.OnPrice | provider/bidengine/order.go:416-448 | an affordable price starts the bid transaction |
| Order.OrderLoop.OnBid | provider/bidengine/order.go:450-464 | a confirmed bid is placed and its timeout armed |
| Order.OrderLoop.AwaitReservation | provider/bidengine/order.go:479-485 | waits for a reservation under way, whose outcome a won order does not use |
| Order.OrderLoop.CleanUp | provider/bidengine/order.go:473-528 | gives back the reservation and closes the bid unless won |
| Order.RunKeepsInv | provider/bidengine/order.go:231-529 | the invariant of every run: one stage at a time and each effect at most once |
| Order.NeverStuck | provider/bidengine/order.go:231-471 | in every run an order that goes on awaits exactly one stage, or has its bid placed and its resources reserved, with the timeout running if there is one |
| Order.RunEndsIff | provider/bidengine/order.go:231-471 | exactly which events end a run, given what it is waiting for |
| Order.StageAdvances | provider/bidengine/order.go:337-464 | each result that does not end the run starts the next stage |
| Order.BidAtMostOnce | provider/bidengine/order.go:378-448 | at most one create-bid, only after a granted reservation, never over a recovered open bid, within the maximum price |
| OrderHistory.BidHasItsReasons | provider/bidengine/order.go:237-448 | in every run nothing is reserved before an accepting eligibility check, and no bid sent before group details, that check, a granted reservation and its price, nor, where one is looked for, before no existing bid was found |
| Order.ReservationReleasedOnce | provider/bidengine/order.go:478-494 | every granted reservation is given back exactly once at the end unless the lease is won |
| Order.CloseAtMostOnce | provider/bidengine/order.go:496-513 | at most one close, none while running or for a won lease |
| Order.LastTurnFlags | provider/bidengine/order.go:231-513 | what the last turn makes of won, placed and recovered, and that the cleanup closes exactly a placed bid of an unwon order |
| Order.LostLeaseCloses | provider/bidengine/order.go:281-291 | a lost lease closes exactly a placed or in-flight bid |
| Order.OutstandingBidClosedIff | provider/bidengine/order.go:281-513 | whenever a run ends unwon, an outstanding bid is closed exactly if confirmed or the lease was lost |
| Order.ShutdownLeavesBidInFlight | provider/bidengine/order.go:234-235 | a concrete run that leaves a bid in flight unclosed |
| Order.RecoveredBidClosedIff | provider/bidengine/order.go:250-270 | a recovered bid is closed on every way out but a win or an external close |
| Order.UnreadBidIsNotClosed | provider/bidengine/order.go:237-270 | an ending before the bid query is answered sends no close |
| Order.TimeoutCloses | provider/bidengine/order.go:465-469 | a timeout fires only on a placed bid and always closes it |

## Left out

- Settlement.SettlementBook.Pay: models payment from the pool; the bare pay, which moves no value, is not part of this model.
- Order.OrderLoop.OnQuery: whether a bid is stale is an arbitrary answer, since the block-age sign in the source looks reversed; likewise the timeout, the shell or scale pricing and the attribute matching are arbitrary results.
- Order.OrderLoop.OnChainEvent: whether an event is about this group, order or provider is part of the event; the two different ways the source writes the provider's identity are not modelled.
- DeploymentManager.Manager.StartDeploy: a deploy counts as one of the version current when it is started; the spawned work reads the shared deployment field without synchronisation, and that race is not modelled.
- DeploymentManager.Manager.FinishReclaimAttempt: block-time delays are left out, and a stale timer tick is allowed at any moment the timer channel is not nil.
- Inventory.InventoryService.HandleRequest: the capacity check accepts or rejects arbitrarily, its effect on the inventory and the TEE type are left out; the caller's aliasing of a returned reservation is not modelled, reservations being values in a list.
- Inventory.InventoryService.Select: lookup, status and metrics cases change no state that matters here and are left out; an inventory update may come at any time, whether fresh or repeated.
- Manifest.Manager.Select: the stop timer is never first armed in the source, so its case is left out.
- Manifest.Manager.ValidateRequest: document validation, proxy limits, group and hostname checks are arbitrary findings around the version comparison, which is modelled; a context that ends between the two looks at it counts as a failed check.
- Hostnames.HostnameService.ReserveHostnames: how a name is lower-cased and which names are blocked are functions the service is given; the channels that serialise callers are the order of the operations.
- ThresholdPool.FrostThresholdPool.CreditDepositZap1: the deposit proof is an arbitrary predicate; simulated transcripts and the older deposit path are left out.
- EscrowCell.EscrowCellObject.AccrueWitness: accrual with a proof or from a node adds a library check or an RPC in front and is left out, as is funding through the pool.
- ShieldedClose.BuildSpendTx: addresses, memos, proofs, signatures, sending and confirming are left out, and so are the key and signature checks in front of a spend; a sent spend counts as mined.
- BidAskPir.ViewsDoNotDependOnIndex: states that the masks map one to one onto the views, which makes a uniform mask hide the index; distributions themselves are not modelled.
- ContractEscrow.Contract.Open: message parsing, response attributes and the plain cell query are left out.
- FROST signing and key generation, AEAD, note encryption, RPC, process spawning, JSON event collection, HTTP handlers, decimal pricing, attribute services, balance checks and migrations are I/O or library code and not part of this model.
