# Relay protocols, verified

A Dafny model of the small protocols the relay runs over durable JSON stores, public chains and
certificate authorities, and proofs of what their comments promise, or of exactly when the code
keeps the promise. `dafny verify dfyconfig.toml` checks everything.

| file | models |
|---|---|
| Topups, FloatGate | card top-ups: the write-ahead deposit, reviewer clicks, the float gate and the treasury sweep (billing.js, vaultsvc.js) |
| Provisioner | paid orders into on-chain create and fund transactions, crash recovery, adoption of orphaned creates (provisioner.js) |
| Indexer | the chain scanner with its overlap window, feeding the payment book (indexer.js, billing.js, store.js) |
| Der, Csr | the strict DER reader and PKCS#10 acceptance, against an independent writer and grammar (certs.js, supervisor.js) |
| AcmeAccount, AcmeOrders, CertCache | the CA account slot, one issuance over the CA slots, running issuances and stored certificates (certs.js) |
| ReplayGate, RateLimiter | single-use signatures under a timestamp window; the token bucket and its idle eviction (fleet-auth.js, certs.js, store.js) |
| DnsWire, DnsMessage, TxtChallenges, DnsZone, DnsServer, DnsAnswers | the authoritative DNS server from query bytes to reply bytes, and what it says (dns-relay.js) |
| Sni | ClientHello parsing and the buffering in front of it (relay.js) |
| Socks, Egress | the SOCKS5 handshake and the table of single-use connection ids (egress.js) |
| Ipv6 | IPv6 text in both directions, a deployment's own address (api-relay.js, dns-relay.js) |
| Domains | custom domains: status machine, store, the three views of it (domains.js) |
| DeploymentList, RelayLabels | merging the enclaves' rows with the chain's, relay choice per label (api-relay.js) |

How protocols are modelled: an event is one stretch of code between two awaits, one step of the
chain or the CA, a crash, or a restart. A pure function `Next` says what the event does to memory
and disk, an invariant holds of every run, and the main results are about every run. Where the
source updates objects in place there is a class with the same fields; each of its methods is
proved to be one step of `Next`. Loops of the source are methods with loops, proved equal to the
recursive function the lemmas are about. Awaited answers (receipts, RPC logs, CA replies, DNS
verdicts) are arguments, so the results hold for all of them.

What is assumed of the world is in the types and preconditions: a receipt is true, while "unknown" and
"in the mempool" may be answered about any hash (Topups, Provisioner); a wallet call that throws
without reporting a hash sent nothing (Topups; for the provisioner it may have sent, and is counted);
only top-ups and the treasury sweep spend the wallet, though the provisioner signs with the same key,
and the float is read in the stretch that inserts the order (FloatGate); RPC logs are real ones
(Indexer); hashes are injective and each signature string verifies for one timestamp at most
(ReplayGate); a connection id is freshly drawn (Egress); the operator's own zone names fit the DNS
limits (DnsZone).

## Where the code gives less than its comments

- A reviewer's approval clears a deposit record even while the wallet call is running, so a top-up can
  be credited once more per approval without any crash (`Topups.BoundIsReached`). Clearing is safe
  exactly when no deposit of the order is mined, in the mempool or inside the wallet call
  (`Topups.ApprovalIsSafeExactly`).
- Rejecting a top-up whose deposit is in flight, selling while a treasury sweep is unmined, or a late
  payment reviving an expired top-up past the gate can break the float gate
  (`FloatGate.ClosingIsSafeExactly`, `FloatGate.SellingIsSafeExactly`, `FloatGate.ReopeningIsSafeExactly`).
- "Never two create() calls for one order" holds up to creates whose hash was lost or denied
  (`Provisioner.CreatesBounded`).
- A create that was mined but whose id was not saved leaves its order stuck, funding nothing, until the
  RPC answers "unknown" about that create (`Provisioner.MinedCreateStrandsOrder`,
  `Provisioner.InterruptedCreate`); the scan that follows rescues it exactly if no other order recorded
  the deployment (`Provisioner.RescuedExactly`). And adoption can give an order another order's deployment (`Provisioner.AdoptionTakesAnotherOrdersDeployment`): it is right exactly
  when no create of another order is mined or pending without a record (`Provisioner.AdoptsOwnExactly`).
- The catch-up clamp skips blocks (with a warning in the log), and a crash before the first cursor flush restarts at the
  tip, leaving the blocks below one overlap unscanned (`Indexer.ClampSkipsExactly`,
  `Indexer.FirstCursorLost`).
- A held ACME order is ordered over when its slot has no account and another slot is usable, and a pending one can be forgotten
  (`AcmeOrders.NoOrderOverAHeldRecordExactly`, `AcmeOrders.RecordRemainsExactly`).
- A SAN with high bits set can pass for the name: the text decoder drops them (`Csr.SanBytesExactly`,
  `Csr.HighBitSanAccepted`).
- Idle eviction refills a bucket on the first minute tick past five idle minutes; the Let's Encrypt pace
  of 25 and 40 a week becomes 25 every six minutes (`RateLimiter.EvictionHarmlessExactly`, `RateLimiter.WeeklyPaceIsForgotten`).
- The replay cache prunes to the second where the window check is exact to the millisecond: a signature
  could count twice if a second passed between the two (`ReplayGate.GapMattersExactly`).
- The DNS parser takes names far beyond 255 bytes, whose UDP replies cannot fit
  (`DnsMessage.LongNameOverflowsUdp`); a freshly pushed challenge can be the one evicted
  (`TxtChallenges.NewestSurvivesExactly`).
- A refused SOCKS greeting or login ends the socket but not its state: bytes of a later chunk are parsed
  in the same phase, so a handshake sent after a refusal still connects, and beyond the refusal the
  outcome depends on the cutting (`Socks.CuttingMattersExactly`, `Socks.RefusedThenConnects`). The id of
  such a CONNECT is an authenticated one all the same (`Socks.OnlyAuthenticatedConnects`).
- The plain-HTTP redirect depends on where the stream is cut (`Sni.RedirectChunkingMattersExactly`).
- The TLS gate and the request path spell `name.:port` differently (`Domains.SpellingsDifferExactly`).
- An enclave without a registry id can replace the runner's row (`DeploymentList.OrderMattersExactly`).

## Model

| member | source | states |
|---|---|---|
| Topups.DepositsBounded | relay/billing.js:332-390 | over every run with crashes and reviewer clicks anywhere, deposits that succeeded for a top-up number at most one plus the approvals that cleared a hash-less depositing record |
| Topups.NeverResendsOverRecordedHash | relay/billing.js:302-329 | whenever a run broadcasts a deposit, every hash recorded before it has reverted on chain |
| Topups.CompleteMeansCredited | relay/billing.js:161-170 | an order reads complete only after one of its deposits was mined |
| Topups.MovesExactly | relay/billing.js:161-170 | over every run an order moves to a state exactly when a cause of that state happens: complete exactly when its deposit is seen mined, rejected only by a reviewer; and the disk knows it by then |
| Topups.DepositCompletes | relay/billing.js:354-388 | a paid order with nothing sent, or a failed deposit, whose deposit goes through ends complete by that very transaction, in memory and on disk |
| Topups.DepositCompletesAfterCrash | relay/billing.js:312-353 | so does one whose process died with the hash on disk, without a second deposit |
| Topups.FailedDepositRetries | relay/billing.js:369-388 | a deposit that throws before its broadcast, or reverts, seen at once or after a crash, leaves an order that can be deposited for again |
| Topups.UndecidedIsAskedAgain | relay/billing.js:312-366 | an unreadable balance, a full vault, a deposit in the mempool or not missed for long, a timeout: each leaves the order as it was |
| Topups.WipedCallEnds | relay/billing.js:369-388 | a wallet call whose record an approval wiped ends, by a throw or a hash, with the order as before the deposit |
| Topups.ResolvedExactly | relay/billing.js:647-672 | an approval takes off exactly a hash-less or failed record and re-credits exactly an order under review, a rejection keeps the record, and either closes its own flag alone |
| Topups.CompletesUnaidedExactly | relay/billing.js:302-353 | a paid order at rest can still complete without a reviewer if and only if its record is not the hash-less mark |
| Topups.FlaggedExactly | relay/billing.js:312-353 | a reviewer is called exactly when settlement meets the hash-less mark or a recorded deposit nobody has known for too long |
| Topups.BoundIsReached | relay/billing.js:658-669 | the bound is reached for every number of clearing approvals, by a run without any crash |
| Topups.ApprovalIsSafeExactly | relay/billing.js:658-669 | clearing a hash-less record keeps the order at one mined deposit until the next clearing, in every later run, if and only if no deposit of the order is mined, pending or inside the wallet call |
| Topups.StepKeepsInv | relay/billing.js:302-390 | every event keeps the write-ahead invariant: live deposits plus what memory or disk may still cause stay within the bound |
| Topups.TopupOrder.SetOrderState | relay/billing.js:161-170 | terminal states stay, except expired into review; a hop is on disk when the call returns |
| Topups.TopupOrder.Settle | relay/billing.js:332-353 | settlement starts only from crediting and by the plan: verify, review, wait or deposit |
| Topups.TopupOrder.VerifyDeposit | relay/billing.js:312-329 | a recorded hash completes, clears or keeps the record by the chain's verdict on it |
| Topups.TopupOrder.BalanceRead | relay/billing.js:354-367 | the depositing mark is on disk before anything is sent |
| Topups.TopupOrder.OnBroadcastHash | relay/billing.js:369-372 | the hash reaches the disk in the stretch that reports it, unless the record was wiped meanwhile |
| Topups.TopupOrder.DepositSettles | relay/billing.js:373-388 | mined completes, reverted marks failed, no verdict changes nothing but the waiting |
| Topups.TopupOrder.Resolve | relay/billing.js:658-672 | approval clears exactly hash-less or failed records and re-credits from review; rejection closes review or crediting |
| FloatGate.ReservedTopup6 | relay/billing.js:190-195 | the loop computes what every open top-up still claims |
| FloatGate.SoldCreditIsCovered | relay/billing.js:804-832 | over every careful run, open top-ups never exceed the float plus deposits mined for them and not yet completed |
| FloatGate.ClosingIsSafeExactly | relay/billing.js:670-672 | in every covered state, deposits mined and not yet completed included, closing an open order keeps the promise for all futures if and only if no deposit for it is in flight |
| FloatGate.SellingIsSafeExactly | relay/vaultsvc.js:329-380 | in every such state an accepted sale keeps the promise for all futures if and only if it also fits what a pending sweep leaves, counting deposits mined and not yet completed |
| FloatGate.ReopeningIsSafeExactly | relay/billing.js:161-170 | in every covered state a payment that revives an expired top-up keeps the promise for all futures if and only if there is still room for its amount beside what a pending sweep takes |
| FloatGate.SweepsExactly | relay/vaultsvc.js:329-333 | a sweep is sent if and only if the wallet holds more than 400 USDC and more than the open claims, and leaves the larger of 200 USDC and those claims |
| FloatGate.SaleRunsThrough | relay/billing.js:804-832 | the gate sells exactly what is covered beside all sold before, and a sale that goes through is paid from the wallet and reserves nothing more |
| Provisioner.FundsBounded | relay/provisioner.js:160-251 | over every run of sweeps, receipts and crashes, an order's successful fund transactions number at most one plus the broadcasts lost before their hash was saved plus the sends over a mined or pending fund the RPC denied |
| Provisioner.CreatesBounded | relay/provisioner.js:12-19 | successful creates of an order likewise: one plus those lost before their hash was saved plus those wiped because the RPC denied them |
| Provisioner.FundsWithinQuote | relay/provisioner.js:176-245 | every fund ever broadcast moves at most its order's quote, onto the deployment that order recorded |
| Provisioner.FundsExactly | relay/provisioner.js:176-180 | over every run a fund moves exactly the quote if nothing, or enough, had arrived when its attempt was planned, and exactly what had arrived otherwise |
| Provisioner.FinishedMeansFunded | relay/provisioner.js:228-250 | a finished order's recorded fund is its own and was mined |
| Provisioner.OrderIsFulfilled | relay/provisioner.js:170-251 | a ready order whose transactions go through gets one create, one fund of the right amount onto what it made, and is finished on disk and off the queue |
| Provisioner.FundedOrderFinishesAfterCrash | relay/provisioner.js:226-250 | one that died with its fund hash on disk finishes once it is mined, sending nothing more |
| Provisioner.PlansExactly | relay/provisioner.js:123-141 | by record and receipts: a create is sent only where none can be out there as far as the RPC says, nothing over the mempool, a denied create is looked for, all else goes to the fund |
| Provisioner.FundDecidedExactly | relay/provisioner.js:226-231 | the fund is sent if and only if the recorded one is unknown or reverted, and a mined one finishes the order without another |
| Provisioner.AdoptsExactly | relay/provisioner.js:264-280 | a scan gives the order a deployment if and only if it is the only one returned that no order recorded |
| Provisioner.ScanOtherwise | relay/provisioner.js:281-291 | several such stop the attempt for a human; none, or no answer, leads to a create of its own |
| Provisioner.DeploymentsDistinct | relay/provisioner.js:199-291 | no two orders ever record one deployment, across creates, adoption, timeouts and crashes |
| Provisioner.StepKeepsInv | relay/provisioner.js:123-291 | every event keeps the write-ahead invariant of all orders and the one worker |
| Provisioner.MinedCreateStrandsOrder | relay/provisioner.js:123-230 | a record whose create mined without a saved id stays so in every run in which the RPC does not answer unknown about that create |
| Provisioner.RescuedExactly | relay/provisioner.js:199-202 | once it does, and the scan returns that create alone, the order records it and goes on to fund if and only if no order recorded it before |
| Provisioner.InterruptedCreate | relay/provisioner.js:212-230 | ending an attempt at its create receipt, by a throw or a crash, never leaves the order stuck that way if and only if the transaction has already failed |
| Provisioner.AdoptionTakesAnotherOrdersDeployment | relay/provisioner.js:264-291 | a concrete run in which an order adopts the deployment another order's create made |
| Provisioner.AdoptsOwnExactly | relay/provisioner.js:264-291 | whatever the chain still mines and the scan returns, an adopted create is the order's own if and only if no other order's create is mined or pending without a record |
| Provisioner.OrderWorker.PlanRecord | relay/provisioner.js:193-202 | one plan is the machine's plan for the receipts the chain gave |
| Provisioner.OrderWorker.MappedIds | relay/provisioner.js:270-273 | the loop collects exactly the deployments some order already records |
| Provisioner.OrderWorker.AdoptOrphanCreate | relay/provisioner.js:264-291 | adoption happens exactly on a single unmapped log and saves it before continuing |
| Provisioner.OrderWorker.WriteAheadCreate | relay/provisioner.js:212-214 | the creating step is on disk before the transaction is sent |
| Provisioner.OrderWorker.CreateMined | relay/provisioner.js:217-223 | a mined create records its deployment and goes on to fund; a reverted one ends the attempt |
| Provisioner.OrderWorker.CheckFund | relay/provisioner.js:226-231 | a recorded fund hash is resent over only when reverted or unknown |
| Provisioner.OrderWorker.SaveFundHash | relay/provisioner.js:239-242 | the fund hash is on disk in the stretch that learns it |
| Provisioner.OrderWorker.FundMined | relay/provisioner.js:243-250 | a mined fund finishes the order; a reverted one ends the attempt |
| Indexer.Indexer.Poll | relay/indexer.js:55-96 | for any chunk and rescan a poll whose nodes answer finishes, having covered every block from its overlap start to the confirmed tip, and keeps the scanner's invariant however it is cut short |
| Indexer.Indexer.ScanWindow | relay/indexer.js:74-96 | each window advances the cursor past its end and covers the overlap behind it, or changes nothing it promised |
| Indexer.Indexer.Deliver | relay/indexer.js:85-92 | each unseen log is handed over once and every answered log is in the book when the window ends |
| Indexer.Indexer.OnPayment | relay/billing.js:211-232 | a log is counted once per order, unmatched ones go to review, and nothing recorded is lost |
| Indexer.Indexer.Crash | relay/store.js:57-61 | memory falls back to the flushed cursor and the invariant still holds |
| Indexer.NothingBeforeTheCursorIsLost | relay/indexer.js:55-96 | in every reachable state, each log between the first cursor and the saved one is recorded and no log was delivered twice by this process |
| Indexer.TotalCountsEachLogOnce | relay/billing.js:228-232 | two duplicate-free lists of the same logs have one total, in whatever order they came back |
| Indexer.ClampSkipsExactly | relay/indexer.js:70-73 | a finished poll reaches back to its cursor if and only if the gap is within the clamp plus one overlap |
| Indexer.FirstCursorLost | relay/indexer.js:64-69 | after any run that crashed before the first cursor was flushed and the next two polls, a block has been scanned if and only if it was before the crash or lies from one overlap behind the new first cursor, or the clamp, up to the tip |
| Der.ReadTlvLoop | relay/certs.js:213-230 | the byte loop is the reader the results are about |
| Der.KidsLoop | relay/certs.js:231-241 | the offset loop terminates and returns the children of that reader |
| Der.WrittenReads | supervisor.js:916-921 | whatever the writer emits, wherever it stands, reads back as that element |
| Der.ReadIsWritten | relay/certs.js:213-230 | an accepted element is byte for byte what the writer emits for it (minimal lengths, X.690 section 10.1) |
| Der.TlvExactly | relay/certs.js:213-230 | an element is read at an offset if and only if its encoding stands there |
| Der.KidsTile | relay/certs.js:231-241 | accepted children tile their parent exactly, each in its only encoding |
| Der.KidsExactly | relay/certs.js:231-241 | opening succeeds if and only if the contents are a list of at most 32 canonical encodings, and returns it |
| Csr.OidLoop | relay/certs.js:242-251 | the arc loop computes the identifier the comparisons use |
| Csr.OidRoundTrip | supervisor.js:929-937 | a written object identifier reads back as its arcs |
| Csr.SubjectExactly | relay/certs.js:282-292 | the subject check accepts exactly one RDN of exactly one CommonName equal to the name |
| Csr.AttributesExactly | relay/certs.js:304-325 | the attribute check accepts exactly one extensionRequest of one subjectAltName of one dNSName equal to the name |
| Csr.AcceptsExactlyRequests | relay/certs.js:268-345 | a request is accepted, and this key returned, if and only if the bytes are a PKCS#10 request (RFC 2986 section 4) for exactly this name, signed by exactly this key |
| Csr.BuildCsr | supervisor.js:945-960 | what a box writes for a name with its key and signature carries the name's bytes, and the relay accepts it and returns that key |
| Csr.SanBytesExactly | relay/certs.js:324-325 | the dNSName matches the name byte for byte, case aside, if and only if it is seven-bit |
| Csr.HighBitSanAccepted | relay/certs.js:324-325 | for every name and key there is a whole request whose dNSName has a high bit set, differs from the name, and is accepted for it |
| AcmeAccount.OneRegistrationInFlight | relay/certs.js:489-530 | under every interleaving of orders, replies and restarts at most one registration of a slot runs |
| AcmeAccount.SlotMatchesStore | relay/certs.js:473-530 | a published account is the persisted key and kid together, and every account an order signs with is a pair the CA itself made |
| AcmeAccount.DeadAccountDroppedOnce | relay/certs.js:536-543 | however many orders see the same dead account, it is removed at most once, ever |
| AcmeAccount.OnlyTheDeadAccountIsDropped | relay/certs.js:536-543 | the slot's account and stored pair go away only for an order told that this very account is gone: a replacement never does |
| AcmeAccount.RegistersAnew | relay/certs.js:497-525 | on a bare slot an order makes an account: new key, named by the CA, stored, published, signed with |
| AcmeAccount.StoredAccountServes | relay/certs.js:490-499 | after a restart the stored account is loaded and signed with, nothing registered |
| AcmeAccount.SiblingsShare | relay/certs.js:489-493 | an order asking during a registration starts none and gets the same account |
| AcmeAccount.FailedRegistrationEnds | relay/certs.js:523-530 | a failed registration ends the orders waiting for it and frees the slot |
| AcmeAccount.LostAccountIsReplaced | relay/certs.js:536-554 | an order whose account is disowned drops it and gets a new one, once |
| AcmeAccount.LateLoserFindsReplacement | relay/certs.js:536-554 | one that is late finds the replacement and drops nothing |
| AcmeAccount.StepKeepsInv | relay/certs.js:473-554 | every event keeps the slot, its promises and its orders consistent |
| AcmeAccount.CaSlot.AcmeAccount | relay/certs.js:489-530 | asking for the account is the machine's step: slot, running registration, store or a new one |
| AcmeAccount.CaSlot.RegistrationReplies | relay/certs.js:509-523 | a reply persists and publishes the pair of this registration; an error publishes nothing |
| AcmeAccount.CaSlot.DropAccount | relay/certs.js:536-543 | a drop acts only on the account it names, with no registration running |
| AcmeAccount.CaSlot.RetryLost | relay/certs.js:547-554 | an order drops and retries once, then gives up |
| AcmeOrders.NoOrderOverAHeldRecordExactly | relay/certs.js:688-759 | no new order is placed while a record is held, whatever the CAs answer after the resume, if and only if the resume of a held record gets an account or no other slot is usable |
| AcmeOrders.RecordRemainsExactly | relay/certs.js:628-759 | when a call finishes the record remains exactly if it ended pending, except a pending one forgotten by a retried resume, and one not resumable while no run of the walk or of its second chances gets past the challenge set-up |
| AcmeOrders.EndsWithFirstSettled | relay/certs.js:680-759 | a call ends as the first of its attempts that settles the order, resume, slots, second chances, in that order; a settled resume places no order, and none settled fails |
| AcmeOrders.OldRecordIsIgnored | relay/certs.js:680-690 | a record past its hour or of an unknown CA is as good as none |
| AcmeOrders.HeldRecordIsResumed | relay/certs.js:691-705 | a held one found issued ends the call with that, without another order |
| AcmeOrders.OrdersOverAHeldRecord | relay/certs.js:666-680 | the first exception happens |
| AcmeOrders.ForgetsAPendingOrder | relay/certs.js:666-680 | the second exception happens |
| AcmeOrders.OrderBook.IssueViaOnce | relay/certs.js:629-661 | the finally keeps the record only of a pending finalized order, and no other key's record changes |
| AcmeOrders.OrderBook.AcmeIssue | relay/certs.js:688-759 | resume, walk and second chances end as the specification says for all CA answers |
| AcmeOrders.OrderBook.WalkSlots | relay/certs.js:722-739 | the walk stops at the first issued or pending order and remembers who cooled off |
| CertCache.OneIssuancePerKey | relay/certs.js:920-961 | at most one issuance of a key runs at a time |
| CertCache.OneCertificatePerName | relay/certs.js:915-950 | the store holds at most one certificate per name, and what an ask gets or joins is for its own name and key |
| CertCache.ServedExactly | relay/certs.js:812-817 | an ask is served from the store if and only if less than two thirds of the lifetime are over |
| CertCache.IssuanceRunsThrough | relay/certs.js:920-961 | asks meanwhile join; afterwards the certificate is served, the name's others are gone, other names keep theirs, the key is free |
| CertCache.FailedIssuanceStartsAgain | relay/certs.js:951-961 | after a failure the store is as it was and the next ask let through starts another |
| CertCache.CertStore.HandleAsk | relay/certs.js:915-960 | an ask is served, joined, refused or started exactly as the machine answers |
| CertCache.CertStore.Record | relay/certs.js:944-950 | the loop removes every other certificate of the name and files this one |
| ReplayGate.EachSignatureCountsOnce | relay/certs.js:843-886 | with a clock that never steps back and under a second between its two readings in a request, no factor string is part of two requests that pass the gate and verify, pruning included |
| ReplayGate.GapMattersExactly | relay/certs.js:843-886 | in all runs whose two readings are at most so many milliseconds apart every signature counts once, if and only if that is under a thousand |
| ReplayGate.SpentIsRefused | relay/fleet-auth.js:45-55 | a string that passed for a timestamp never passes for it again: marked, or the window is over |
| ReplayGate.NewSignaturesPass | relay/certs.js:880-886 | inside the window, strings never marked before are not refused |
| ReplayGate.WindowExactly | relay/certs.js:843-844 | a request is let past the window check if and only if its timestamp is within ten minutes, and outside it spends nothing |
| ReplayGate.ReplayCache.Fresh | relay/fleet-auth.js:45-55 | the pruning loop drops exactly the expired marks and the answer is whether the string was unmarked |
| RateLimiter.WindowBound | relay/store.js:66-78 | a bucket not evicted grants at most its capacity plus the refill of the time it was asked over |
| RateLimiter.EvictionHarmlessExactly | relay/store.js:68 | evicting idle buckets never changes an answer if and only if 300.001 times the refill rate reaches the capacity |
| RateLimiter.WeeklyPaceIsForgotten | relay/certs.js:389-395 | under the minute timer, at whatever phase it ticks, one bucket of the Let's Encrypt pace grants a full 25 every six minutes |
| RateLimiter.Limiter.Ask | relay/store.js:69-77 | one request is one step of its own key's bucket and touches no other |
| RateLimiter.Limiter.EvictIdle | relay/store.js:68 | the timer removes exactly the buckets idle longer than 300 s |
| DnsWire.QnameEncodes | relay/dns-relay.js:288-297 | the name of a parsed question always encodes again, dots inside labels included |
| DnsWire.QnameSplits | relay/dns-relay.js:407-445 | a dot-free question name splits back into its own labels, lower-cased |
| DnsWire.LabelsRead | relay/dns-relay.js:288-297 | written labels read back |
| DnsWire.ReadIsLabels | relay/dns-relay.js:413-423 | what the label reader takes is exactly an encoding |
| DnsWire.RecordReads | relay/dns-relay.js:299-300 | a written record reads back field by field and ends where it was written |
| DnsMessage.ParseQueryLoop | relay/dns-relay.js:407-445 | both offset loops terminate and compute the parse the results are about |
| DnsMessage.WrittenQueryParses | relay/dns-relay.js:407-445 | the parser inverts a query writer for up to 64 labels and any records after the question, seeing an OPT exactly when one was written |
| DnsMessage.ParsedQuestion | relay/dns-relay.js:407-445 | an accepted query asks one question of at most 64 plain labels, echoed verbatim |
| DnsMessage.ReplyReads | relay/dns-relay.js:447-466 | a reply echoes id and question, reading the counted records gives back the chosen ones and ends on the last byte, TC exactly when some were dropped (RFC 1035 section 4.1) |
| DnsMessage.UdpFitsExactly | relay/dns-relay.js:459-466 | a UDP reply fits its limit if and only if the bare question with its OPT does; at 1232 a 255-byte name always fits |
| DnsMessage.LongNameOverflowsUdp | relay/dns-relay.js:413-423 | a query the parser accepts whose UDP reply exceeds 1232 |
| TxtChallenges.TxtReads | relay/dns-relay.js:309-317 | the character-strings concatenate back to the value, at one byte per 255 |
| TxtChallenges.TxtDataLoop | relay/dns-relay.js:309-317 | the chunk loop writes those strings, one at least |
| TxtChallenges.NewestSurvivesExactly | relay/dns-relay.js:688-696 | the value just pushed is kept unless the name was full without it and all others expire later |
| TxtChallenges.PushedIsServed | relay/dns-relay.js:688-696 | a value pushed is served exactly until it expires, unless the name was full of later-expiring ones |
| TxtChallenges.OthersSurviveExactly | relay/dns-relay.js:690-696 | of the values there before only the first of those closest to expiry goes, exactly when the name overflows |
| TxtChallenges.OldestLoop | relay/dns-relay.js:693-694 | the loop finds the first value closest to expiry |
| TxtChallenges.TxtStore.Push | relay/dns-relay.js:677-699 | within both caps for ever; refused only when full of names still live |
| TxtChallenges.TxtStore.TxtValues | relay/dns-relay.js:269-276 | expired values go, the live ones are listed in order, other names keep theirs |
| TxtChallenges.TxtStore.ExpireAll | relay/dns-relay.js:682 | every name keeps exactly its live values |
| TxtChallenges.TxtStore.Remove | relay/dns-relay.js:701-702 | exactly the deleted value goes |
| DnsZone.TargetEncodes | relay/dns-relay.js:338-352 | a service target is the tail of the question's own name, so it encodes and is no longer |
| DnsZone.MatchingExactly | relay/dns-relay.js:346-347 | the prefix lookup keeps exactly the deployments whose id starts so |
| DnsZone.AnswerBounded | relay/dns-relay.js:331-399 | every resolver answers with few records of bounded size, challenge records only for pushable names |
| DnsZone.BoundedFits | relay/dns-relay.js:459-466 | such an answer is written in fewer than 65536 bytes |
| DnsServer.RepliesFit | relay/dns-relay.js:469-508 | for every query and zone state within the caps a TCP reply fits its 16-bit length (RFC 1035 section 4.2.2), a UDP reply 1232 bytes unless the bare question does not |
| DnsServer.RepliesAreWellFormed | relay/dns-relay.js:469-476 | every reply handle sends is well formed and complete over TCP |
| DnsServer.AnswersAreAboutTheQuestion | relay/dns-relay.js:390-399 | every answer is owned by the name asked for, and authority is claimed exactly for Internet questions in our zones |
| DnsServer.ChallengesAreServed | relay/dns-relay.js:360-368 | a challenge query is answered with exactly the live values, in order, readable back |
| DnsAnswers.AddressAnswered | relay/dns-relay.js:338-358 | the name of exactly one deployment: an address question gets that deployment's own address alone, any other nothing, with SOA |
| DnsAnswers.ServiceAnswered | relay/dns-relay.js:350-354 | its service name gets its first TCP port at the plain name with the address along, or nothing, with SOA |
| DnsAnswers.UnknownExactly | relay/dns-relay.js:338-347 | NXDOMAIN if and only if the name does not spell an id prefix of exactly one deployment |
| DnsAnswers.ChosenRelayServes | relay/dns-relay.js:379-388 | a label that chose a relay gets that relay's addresses, each family exactly if asked for and known there |
| DnsAnswers.ZoneAddressesServe | relay/dns-relay.js:360-399 | every other name of the app, tcp and box zones gets the zone's own, likewise |
| DnsAnswers.ChallengeAnswered | relay/dns-relay.js:364-368 | challenge texts come exactly where texts are wanted at a challenge name: all live values, in order, readable |
| DnsAnswers.ApexAnswered | relay/dns-relay.js:331-336 | a zone's own name gets SOA and NS, each exactly when asked for |
| DnsAnswers.RefusedExactly | relay/dns-relay.js:390-399 | other operations are not implemented, other classes and names refused, with nothing else in the answer |
| DnsAnswers.FlagsRead | relay/dns-relay.js:447-455 | the flag word field by field |
| DnsAnswers.ReplyCarriesAnswer | relay/dns-relay.js:459-476 | the TCP reply to a parsed query carries exactly the answer about its question, and an OPT if and only if one was sent |
| DnsAnswers.DeploymentIsFound | relay/dns-relay.js:331-476 | from the bytes of a written address question to one record read from the reply: the deployment's address |
| DnsServer.FramesIgnoreChunking | relay/dns-relay.js:490-508 | however the TCP stream is cut the same messages come out |
| DnsServer.FramedReads | relay/dns-relay.js:505-506 | the length-framed replies read back one by one |
| DnsServer.TcpConnection.OnData | relay/dns-relay.js:494-507 | the buffer loop takes off every complete message and keeps the rest |
| Sni.SniFromClientHello | relay/relay.js:152-184 | the cursor walk is the verdict the results are about |
| Sni.AnswersAreStable | relay/relay.js:152-184 | once an answer is given more bytes never change it |
| Sni.WaitsOnlyBriefly | relay/relay.js:300-301 | it waits only below 18437 bytes, so the 20000-byte cut-off is never reached |
| Sni.WrittenNameIsRead | relay/relay.js:158-182 | from any single-record ClientHello naming a host, wherever among the extensions, that name is read (RFC 8446 section 4.1.2, RFC 6066 section 3) |
| Sni.TlsIgnoresChunking | relay/relay.js:278-302 | for TLS the connection waits or is routed by the bytes alone, however they are cut |
| Sni.RedirectChunkingMattersExactly | relay/relay.js:289-299 | a plaintext head is treated alike for every cutting if and only if it does not end within 8192 bytes of a longer stream |
| Sni.PlaintextReacts | relay/relay.js:289-298 | plaintext within 8192 bytes is redirected by its head once that ends, waits until then, and beyond is closed |
| Sni.Connection.OnData | relay/relay.js:280-302 | one chunk buffered and decided on |
| Socks.ChunkingIgnored | egress.js:154-221 | for up to 4096 bytes cut in any way, everything up to and with the first end, destroy or CONNECT is the same as for one chunk |
| Socks.CuttingMattersExactly | egress.js:170-220 | past that first stop some cutting gives other outputs if and only if the bytes behind a refusal hold another turn |
| Socks.RefusedThenConnects | egress.js:170-220 | a refused greeting and then a good handshake: only the refusal when they come at once, the refusal and a CONNECT when they come in two chunks |
| Socks.OnlyAuthenticatedConnects | egress.js:154-221 | over any chunks, refused attempts and bytes after them included, beginConnect is reached at most once, last, after both good replies, and the client's own bytes hold a good login for its id with the request for its host and port right behind |
| Socks.WrittenHandshakeConnects | egress.js:162-214 | a client that greets, logs in and asks gets exactly its host and port under its id (RFC 1928 sections 3, 4 and 6; RFC 1929 section 2) |
| Socks.StepsResume | egress.js:162-221 | with more bytes step does what it did and goes on from there exactly if it was waiting |
| Socks.SocksSession.Data | egress.js:215-220 | the data handler is the machine, output for output, after a refusal as before it |
| Socks.SocksSession.OnLogin | egress.js:176-193 | the login state needs, refuses and stays, or accepts exactly as the machine turns |
| Socks.SocksSession.OnRequest | egress.js:194-211 | the request state likewise, the missing length byte waiting |
| Egress.SingleUseAndOneReply | egress.js:144-312 | each connection id is consumed at most once and each CONNECT gets at most one reply |
| Egress.EveryConnectIsAccountedFor | egress.js:224-312 | a CONNECT is answered, or waiting, or taken over by a relay that broke off: exactly one of the three |
| Egress.RepliesExactly | egress.js:144-312 | each reply is sent exactly when caused: denied for a blocked destination or the relay's refusal, success only for an authorized upgrade that completes |
| Egress.WaitsExactly | egress.js:224-260 | a socket comes to wait exactly when its destination is allowed, a relay is there and was told, under a fresh id |
| Egress.BlockedIsDenied | egress.js:224-228 | over every run a CONNECT to a blocked destination draws no id, never waits, and gets DENIED as its only reply |
| Egress.RouteExactly | egress.js:117-133 | a source is bound only at its owner, and a connection is refused exactly when nothing usable is attached |
| Egress.PendingTable.Fail | egress.js:144-151 | a failure replies once to the socket that waited and forgets the id |
| Egress.PendingTable.Open | egress.js:224-260 | an opened connection is refused, refused after a failed send, or pending under a fresh id |
| Egress.PendingTable.HandleUpgrade | egress.js:294-312 | 401, 404, or the id is consumed and its socket granted |
| Ipv6.TextRoundTrips | relay/api-relay.js:724-744 | every address reads back as its number in the api relay and as its sixteen octets in the DNS server |
| Ipv6.TextIsCanonical | relay/api-relay.js:733-744 | the text is the canonical one of RFC 5952 section 4, the first longest run of at least two zero groups left out |
| Ipv6.BestIsFirstLongest | relay/api-relay.js:736-740 | the scan finds the first longest run of zeros |
| Ipv6.BestRunLoop | relay/api-relay.js:736-740 | the loop is that scan |
| Ipv6.NoTripleColon | relay/api-relay.js:743 | there is never a third colon for the final replace to fold |
| Ipv6.BytesOfGroups | relay/dns-relay.js:170-176 | the octets are the groups' number, big-endian |
| Ipv6.DepAddrStays | relay/api-relay.js:745-752 | a deployment's address stays in the prefix's /64, outside its reserved range, and two hashes share one exactly when the move makes them meet |
| Domains.EveryRecordIsSound | relay/domains.js:508-536 | in every reachable state an active domain is verified with a good last report, a live one has fewer than five bad verdicts since its last good one, and no deployment holds more than ten names |
| Domains.DemotedExactly | relay/domains.js:520-529 | a live record is demoted exactly by the fifth bad verdict since a good one, indeterminate ones not counting |
| Domains.OnlyFiveBadVerdictsDemote | relay/domains.js:508-536 | a live name stops being live only so, or by its owner, the purge, or going back to the disk |
| Domains.GoesLiveExactly | relay/domains.js:512-516 | a record that is not live becomes live exactly by a good verdict, verified since the first good one of this spell |
| Domains.FailsExactly | relay/domains.js:530-536 | a pending record fails exactly at its 24th strike, and indeterminate verdicts change nothing |
| Domains.ActivatesExactly | relay/domains.js:803-820 | a report makes a verified record active exactly if good, takes an active one back exactly if bad, and moves no other |
| Domains.AttachedGoesLive | relay/domains.js:508-820 | in every reachable state a free name of a deployment with room, attached, found right and reported minted, is routed to its deployment, also over a restart |
| Domains.DetachedIsGone | relay/domains.js:686-697 | a name its owner detaches is routed no more, also after a restart; nobody else's ask changes anything |
| Domains.ViewsAgree | relay/domains.js:362-397 | the routing map, the lookup and the certificate lists agree on every canonical name, and the TLS gate is that set minus the reserved names |
| Domains.SpellingsDifferExactly | relay/domains.js:373-388 | the two spell the asked name alike unless a port follows a trailing dot |
| Domains.DomainRecord.Apply | relay/domains.js:508-536 | a verdict changes the record as the machine does and reports a change of status |
| Domains.DomainRecord.Issued | relay/domains.js:803-820 | a report activates only a verified record and a bad one takes an active back |
| Domains.DomainStore.Attach | relay/domains.js:717-746 | a name is attached exactly when it is free and its deployment has fewer than ten |
| Domains.DomainStore.CountRows | relay/domains.js:331-333 | the loop counts the names of a deployment |
| Domains.DomainStore.RoutingMap | relay/domains.js:362-368 | the map has exactly the live names |
| DeploymentList.ListDeployments | relay/api-relay.js:1732-1826 | the two loops build the list the results are about |
| DeploymentList.ListShows | relay/api-relay.js:1788-1806 | for each id the list shows the row its candidates settle on in their order |
| DeploymentList.SoleRowShownExactly | relay/api-relay.js:1776-1798 | the one row for an id is shown unless it declares dead what another box runs under a live lease |
| DeploymentList.NoIdTwice | relay/api-relay.js:1732-1826 | no id is shown twice |
| DeploymentList.EveryLedgerRowShown | relay/api-relay.js:1807-1825 | every deployment the chain has for the owner is shown, by an enclave's row or the ledger's own, whose running is taken back to claimed if and only if the token's owner asks and the runner answered |
| DeploymentList.NoStaleTerminalRow | relay/api-relay.js:1776-1782 | no row declaring a deployment dead is shown from a registered box that is not its live lease's runner |
| DeploymentList.OrderMattersExactly | relay/api-relay.js:1783-1798 | when the runner answered, its row is shown for every order of the answers if and only if no enclave without a registry id reports the deployment live |
| DeploymentList.RunningIsNotContradicted | relay/api-relay.js:1811-1821 | for the token's owner a ledger row reads running only while its runner has not answered |
| RelayLabels.Build | relay/api-relay.js:981-1001 | a label answers exactly when one deployment alone claims it and its relay or the default can carry it |
| RelayLabels.ChoiceHonoured | relay/api-relay.js:982-998 | a label one deployment claims answers with an eligible relay of the name its owner chose, else of the default name, else nothing |
| RelayLabels.ByNameExactly | relay/api-relay.js:982 | of several eligible relays of a name the last is taken |
| RelayLabels.SharedLabelsAnswerNothing | relay/api-relay.js:986-992 | of two claimants of a label neither decides where the other's traffic goes |

## Left out

- HTTP, WebSocket, UDP and TCP plumbing, timers and logging: only the state change each event makes is modelled.
- Cryptography, key and certificate parsing by node: predicates over the bytes they are given (`Csr.World`, `Socks.World`).
- PEM armour and base64 around a request: `Csr` starts from the DER.
- Chains, RPC pools, contract ABIs, Stripe, CAs and DoH: their answers are arguments, within the assumptions above.
- supervisor.js beyond its request writer, vaultsvc.js beyond the sweep amount, fleet.mjs and the contracts are not part of this model.
- Stripe and USDC screening branches of handleConfirmedPayment, evaluatePayment and rate6For: decisions of one branch each.
- Provisioner and settlement progress: no claim is made that an order ever completes.
- AcmeOrders.OrderBook.AcmeIssue: cool-off times, pace tokens and the slots' order are given by the environment, because every other order changes them too; a sweep that expires a record during a call longer than its hour is not modelled.
- CertCache.CertStore.HandleAsk: back-off and endpoint pacing are one given answer.
- Socks.SocksSession.Data: what node does with a write after an end (it reports an error and destroys the socket) is left to the runs that stop there.
- Provisioner.OrderWorker.AdoptOrphanCreate: the scan's 50000-block range is part of which logs come back.
- Egress.PendingTable.Fail: stopping the server, which fails every waiting id in turn, is not modelled.
- Ipv6.TextRoundTrips: groups that parseInt reads leniently (signs, 0x, trailing junk, more than four digits) are refused by the model's v6ToBig; no written address has any.
- DnsZone.AnswerBounded: names the operator configures are taken to fit the DNS limits; a configuration that does not is answered SERVFAIL by the source.
- DnsServer.TcpConnection.OnData: the per-source rate limit in front of each query is not modelled.
- Domains.DomainStore.Attach: hostname normalisation, the reserved-name lists, ownership signatures and the DNS verdict itself are given.
- Domains.OnlyFiveBadVerdictsDemote: after a restart the model lets checks of the old process still come back, which allows more than the source does.
- DeploymentList.ListDeployments: learning owners, enclave names and error replies are not part of the list.
- RateLimiter.Limiter.Ask: tokens are real numbers where the source has floating point.
- JavaScript's number precision: amounts, lengths and times are unbounded integers; none of the modelled values reaches 2^53.
- relay/auth.js, secrets.js, tcp6-relay.js, udp-relay.js, egress-relay.js, mcp.js, sso.js, ofac.js, boxhost.js: smaller versions of the invariants above, or thin wrappers.
