# Forwarder, recovery journal and accounting ledger

A model of the decision logic of the Grafana/JSM sandbox: the forwarder's dispatch protocol, the
receiver's recovery journal, the accounting ledger with its archive, and the two codecs they rest
on. Each state machine is a datatype with total step functions, and the main results are about
every run of those steps. Code that changes state in place is a class or a method with loops, proved
to compute exactly those functions.

Files, by part:

- Codecs: `HttpResponse`, `HttpGrammar` (what is parsed, as a grammar), `ResponseReceive`, `Json`,
  `CanonicalJson`, `CanonicalInjective`, `JsonReader` and `UnicodeReader` (readers of RFC 8259,
  RFC 3629 and RFC 2781 for what is printed), `Prescan`, `Postwalk`, over `Text` and `Unicode`.
- Dispatch: `Receipts` and `ReceiptLedger`, `Leases`, `LeaseTrace` and `LeaseRegistry`, `Gate`,
  `GateInvariant`, `Closeout` and `CloseoutTrust`, `ScopeStore` and `DispatchGate`, `Exchange`,
  `ControlFence` and `ControlWitness`, `UpstreamChannel`, over `Clock` and `Counting`.
- Journal: `Journal` (records, guards, verification, application), `JournalDedupe`, `JournalHolds`,
  `JournalChain`, `JournalOrder`, `JournalKeeps`, `JournalWitness`, `JournalAccounting`,
  `JournalReplay`, `JournalProjector`, `JournalPlans`.
- Accounting: `AccountingPolicy`, `AccountingTransition`, `AccountingBudget`, `AccountingStore` and
  `LedgerStore`, `AccountingArchive` (segments and index as values), `ArchiveBytes` and
  `ArchiveCodec` (segments as bytes).
- Answers: `LeaseAnswers`, `ReceiptAnswers`, `GateAnswers`, `ExchangeAnswers`, `ControlAnswers`,
  `ChannelAnswers`, `JournalCommits`, `JournalClaims`, `PolicyAnswers`, `HistoryAnswers`,
  `StoreAnswers` and `ArchiveAnswers` say of each operation exactly when it succeeds and with what,
  in terms of the state or the history its caller finds.

How things are represented:

- A lock-protected method is one atomic step; threads interleave between steps. Clock readings are
  arguments: a fault, or an integer instant. Every operation that reads a clock takes its own.
- A digest is the value it digests, so it is injective by construction. Random ids and tokens are
  fresh numbers. Lengths of encoded records are inputs.
- An exception is a `Result`, `Option` or error value; the order of checks is the code's.
- A storage fault stops a sequence of durable writes after any of them, or tears one.
- In the journal's claim families a record holds the fields its author chooses. The fields that
  verification recomputes and compares are functions of the projection and are not stored twice.

Where the code is narrower than its intent:

- The first journal commit is not compared with the byte total it sets (`GenesisMayExceed`), so it is
  within it exactly when its own charge is (`GenesisExactly`); a journal over its total takes nothing
  more (`NothingAfterExcess`).
- Planning a resume does not check that it comes first after the restart: the plan then fails
  (`ResumePlanPasses`, `ResumePlannedTooLate`).
- Costs are appended without asking any ceiling (`CostAccepted`), so a history can pass it
  (`CostsUnchecked`). It stays within exactly while every cost fits in what is left (`WithinExactly`);
  once over, it never reserves again (`OverForever`).
- The response reader asks for more bytes than the message may have left. With bytes behind the
  message, success depends on the chunks (`ChunksDecide`); it is certain exactly when there are none
  (`AlwaysReceived`).
- A replaced control session that observes a refused closeout holds the registry of the new owner
  (`ReplacedHolds`). Otherwise it leaves the registry as time alone would (`ReplacedIsHarmless`).
- A first event whose identities coincide is stored before it is replayed: the creation fails, and the
  files it leaves can only be held (`CreatedInVain`). The rows of a ledger replay exactly when they differ
  (`RowsReplay`).
- A quiescent verdict can be wrong when the gate's clock reads behind the ledger's
  (`WrongVerdict`); `TrustedExactly` says for which readings it never is. The code reads the ledger
  first.

## Model

| member | source | states |
|---|---|---|
| HttpResponse.CollectFields | grafana_jsm_sandbox/forwarder_http_response.py:78-118 | the loop that fills the header dictionary computes the fold of the header lines, with the same refusals (malformed line, repeated name, forbidden field) |
| HttpResponse.SplitJoin | grafana_jsm_sandbox/forwarder_http_response.py:161-209 | splitting header lines joined by line ends gives the very lines back, so no printed value can smuggle in a line |
| HttpResponse.ParseHeadOfLines | grafana_jsm_sandbox/forwarder_http_response.py:147-158 | a head made of a status line and header lines parses to that status and to the body length its fields determine, or is refused exactly when that length is |
| HttpResponse.RoundTrip | grafana_jsm_sandbox/forwarder_http_response.py:121-209 | parsing what was printed gives the response back, for every response that can be printed at all |
| HttpResponse.ParseSound | grafana_jsm_sandbox/forwarder_http_response.py:121-209 | whatever the parser accepts is a printable response whose body is the rest of the input verbatim; printing and parsing it again is the identity |
| ResponseReceive.MessageParses | grafana_jsm_sandbox/forwarder_response_receive.py:147-201 | the message a stream determines is what parsing exactly its bytes gives |
| ResponseReceive.CollectLine | grafana_jsm_sandbox/forwarder_response_receive.py:107-144 | the status-line loop is the recursive reading of the stream under the schedule; what was captured is a prefix of the stream, and a cooperative schedule of a valid message never fails here |
| ResponseReceive.CollectHead | grafana_jsm_sandbox/forwarder_response_receive.py:107-144 | the head loop likewise; the head end found in the captured bytes is the head end of the whole stream, for every schedule of chunks |
| ResponseReceive.ReceivedIsMessage | grafana_jsm_sandbox/forwarder_response_receive.py:147-201 | every successful schedule of chunks returns the one response the stream determines and consumes exactly its bytes |
| ResponseReceive.FailsByExcess | grafana_jsm_sandbox/forwarder_response_receive.py:147-201 | under a cooperative schedule the only failure on a valid message is a read past its end |
| ResponseReceive.AlwaysReceived | grafana_jsm_sandbox/forwarder_response_receive.py:107-201 | a stream that starts with a message is received under every cooperative schedule exactly when nothing follows the message |
| ResponseReceive.SometimesReceived | grafana_jsm_sandbox/forwarder_response_receive.py:107-201 | and under some cooperative schedule always |
| ResponseReceive.PrintedMessage | grafana_jsm_sandbox/forwarder_response_receive.py:147-201 | a printed response followed by anything is that message, ending where the print ends |
| ResponseReceive.ChunksDecide | grafana_jsm_sandbox/forwarder_response_receive.py:121-136 | a concrete stream with one cooperative schedule that succeeds and one that fails |
| ResponseReceive.ReceiveResponse | grafana_jsm_sandbox/forwarder_response_receive.py:147-201 | the whole collection computes that function of stream and schedule, in result and in bytes consumed |
| HttpGrammar.ParseExactly | grafana_jsm_sandbox/forwarder_http_response.py:61-179 | a byte string is parsed to a response exactly when it is the text of a legal message with that status and body: status line, at most 64 fields with distinct names and none of the four refused, a connection field that lists tokens, sizes within 2,048 and 16,384 bytes, and a declared length and type that match the status and the body |
| HttpGrammar.ListExactly | grafana_jsm_sandbox/forwarder_http_response.py:78-118 | splitting a list at commas and checking every part is checking every stretch between two commas |
| HttpGrammar.SerializeExactly | grafana_jsm_sandbox/forwarder_http_response.py:182-209 | a response is printed exactly when its status is a success or an error and its body has a size that goes with it, and then as one given message |
| CanonicalJson.CanonEmits | grafana_jsm_sandbox/forwarder_json.py:266-301 | a value is canonicalized exactly when its meaning is encodable, and then to the text of that meaning, with object members in the order of their UTF-16 key units; `JsonReader` says what that text is to a reader |
| JsonReader.QuoteReads | grafana_jsm_sandbox/forwarder_json.py:79-82 | a quoted string reads, by the string grammar of RFC 8259, as the string it quotes, whatever follows it |
| JsonReader.EscapeShortest | grafana_jsm_sandbox/forwarder_json.py:79-82 | no text that reads as a character is shorter than the one printed for it, so only the quotation mark, the backslash and controls are escaped, by a letter where there is one |
| JsonReader.IntReads | grafana_jsm_sandbox/forwarder_json.py:266-301 | a number reads as itself, up to a delimiter |
| JsonReader.TreeReads | grafana_jsm_sandbox/forwarder_json.py:266-301 | every printed value reads back from its text, up to a delimiter, in a reader of RFC 8259 that shares nothing with the printer |
| JsonReader.CanonicalReads | grafana_jsm_sandbox/forwarder_json.py:304-310 | canonical bytes decode as UTF-8 and then read as JSON to exactly what the value means |
| UnicodeReader.Utf8Reads | grafana_jsm_sandbox/forwarder_json.py:304-310 | the bytes of a text decode to that text by RFC 3629 |
| UnicodeReader.KeyOrder | grafana_jsm_sandbox/forwarder_json.py:266-301 | the key order is the order of the big-endian UTF-16 bytes of RFC 2781, in which a prefix comes first and otherwise the first difference decides |
| CanonicalJson.SameMeaningSameBytes | grafana_jsm_sandbox/forwarder_json.py:266-310 | dictionary insertion order and the list/tuple distinction change neither acceptance nor the bytes |
| CanonicalInjective.TreePrefixFree | grafana_jsm_sandbox/forwarder_json.py:266-301 | no canonical text is a proper prefix of another up to a delimiter, so a text splits in one way only |
| CanonicalInjective.EqualBytesEqualMeaning | grafana_jsm_sandbox/forwarder_json.py:266-310 | two accepted values with equal canonical bytes mean the same, also across the two string policies |
| Prescan.PrescanDepth | grafana_jsm_sandbox/forwarder_json.py:85-114 | the scanning loop, with its string and escape states, accepts exactly the texts whose nesting outside strings stays within the limit |
| Prescan.ScanTree | grafana_jsm_sandbox/forwarder_json.py:85-114 | scanning past a value's canonical text succeeds exactly when the value fits the depth that is left, and leaves the depth where it was |
| Prescan.PrescanAcceptsCanonical | grafana_jsm_sandbox/forwarder_json.py:85-114 | the scan accepts every canonical encoding of an accepted value |
| Postwalk.PushReversed | grafana_jsm_sandbox/forwarder_json.py:117-175 | the children of a container are pushed so that they are visited in order |
| Postwalk.VisitDict | grafana_jsm_sandbox/forwarder_json.py:117-175 | visiting a dictionary fails as the recursion would, or replaces it by its children with the same meaning and a smaller load |
| Postwalk.VisitList | grafana_jsm_sandbox/forwarder_json.py:117-175 | the same for a list |
| Postwalk.VisitValue | grafana_jsm_sandbox/forwarder_json.py:117-175 | one visit of any value either fails as the recursion would, or leaves stacks with the same meaning and a smaller load |
| Postwalk.Walk | grafana_jsm_sandbox/forwarder_json.py:117-175 | the explicit-stack walk ends, leaves exactly one result, equals the recursive rebuild and fails exactly when and how the recursion does |
| Postwalk.RebuildSound | grafana_jsm_sandbox/forwarder_json.py:117-175 | the rebuild accepts exactly the values within the depth, length and string policy, and what it returns means the same as its input |
| Receipts.StepSteps | grafana_jsm_sandbox/forwarder_receipts.py:444-723 | every operation keeps the ledger's bounds and moves every entry only forward |
| Receipts.RunSteps | grafana_jsm_sandbox/forwarder_receipts.py:444-723 | the same over every run |
| Receipts.RetentionWindow | grafana_jsm_sandbox/forwarder_receipts.py:192-196 | after any run and any accepted reading every retained entry was reserved less than 350 seconds before it, an unfinished one is before its deadline, every completion is at most its deadline, and charges and count are within the caps |
| Receipts.FinalizedOnce | grafana_jsm_sandbox/forwarder_receipts.py:594-664 | after a successful finalization no later one on the same reservation succeeds, whatever happens in between |
| Receipts.ClaimedOnce | grafana_jsm_sandbox/forwarder_receipts.py:668-697 | the right to write a receipt's client bytes is granted at most once |
| Receipts.DeliveredOnce | grafana_jsm_sandbox/forwarder_receipts.py:699-723 | a delivery outcome is recorded at most once |
| Receipts.ClaimNamesBytes | grafana_jsm_sandbox/forwarder_receipts.py:668-697 | a granted claim is for bytes that parse to exactly the receipt's client response |
| Receipts.AlreadyFresh | grafana_jsm_sandbox/forwarder_receipts.py:466-495 | sweeping and pruning again at the last accepted reading changes nothing |
| ReceiptLedger.Ledger.SweepAbandoned | grafana_jsm_sandbox/forwarder_receipts.py:466-479 | the sweep loop finalizes exactly the overdue unfinished entries, as abandoned in the state their phase calls for, and leaves the charged total right |
| ReceiptLedger.Ledger.PruneRetention | grafana_jsm_sandbox/forwarder_receipts.py:481-495 | the pruning loop drops exactly the entries past retention and gives back exactly their charges |
| ReceiptLedger.Ledger.Tick | grafana_jsm_sandbox/forwarder_receipts.py:444-464 | a reading sweeps and prunes, a backward or faulty one holds the ledger for good; the running total stays the sum of the retained charges |
| ReceiptLedger.Ledger.Reserve | grafana_jsm_sandbox/forwarder_receipts.py:531-572 | adds one entry under a new id exactly when the deadline window, the count and the byte cap allow it |
| ReceiptLedger.Ledger.BeginConnect | grafana_jsm_sandbox/forwarder_receipts.py:574-582 | moves a reserved entry on, in order, before its deadline only |
| ReceiptLedger.Ledger.BeginDispatch | grafana_jsm_sandbox/forwarder_receipts.py:584-592 | moves a connecting entry on, in order, before its deadline only |
| ReceiptLedger.Ledger.Finalize | grafana_jsm_sandbox/forwarder_receipts.py:594-616 | ticks, then finalizes; the whole new ledger and the answer are those of the value model |
| ReceiptLedger.Ledger.FinalizeEntry | grafana_jsm_sandbox/forwarder_receipts.py:618-664 | a legal state and reason for the entry's phase gives one receipt with its client response; anything else changes nothing |
| ReceiptLedger.Ledger.ClaimDelivery | grafana_jsm_sandbox/forwarder_receipts.py:668-697 | claims the client bytes of a receipt when they digest to what it records |
| ReceiptLedger.Ledger.CompleteDelivery | grafana_jsm_sandbox/forwarder_receipts.py:699-723 | records one delivery outcome for a claimed receipt |
| ReceiptLedger.Ledger.Snapshot | grafana_jsm_sandbox/forwarder_receipts.py:748-766 | reading the ledger sweeps it and changes nothing else, also while held |
| ReceiptLedger.Ledger.Contains | grafana_jsm_sandbox/forwarder_receipts.py:725-746 | answers true exactly for a retained finalized receipt handed out under this token, and never while held |
| ReceiptAnswers.EntryAfter | grafana_jsm_sandbox/forwarder_receipts.py:444-495 | a reading leaves an open entry as it is up to its deadline, abandons it at that deadline, and keeps a closed one for 310 seconds |
| ReceiptAnswers.ReserveExactly | grafana_jsm_sandbox/forwarder_receipts.py:531-572 | a reservation is made exactly when the reading is good, the deadline lies within 40 seconds, the request within 280,576 bytes, and a place and its charge are free |
| ReceiptAnswers.TransitionExactly | grafana_jsm_sandbox/forwarder_receipts.py:574-592 | a transition happens exactly for an open reservation in the phase before it, up to its deadline |
| ReceiptAnswers.ClientMeans | grafana_jsm_sandbox/forwarder_receipts.py:66-110 | the status the client sees for every state and reason: 504 whenever time ran out, the upstream's own only for a fine confirmed response, 502 for everything else that reached the upstream |
| ReceiptAnswers.FinalizeExactly | grafana_jsm_sandbox/forwarder_receipts.py:594-664 | an outcome is recorded exactly for an open reservation up to its deadline, when its phase admits the state, the state has the reason, and an upstream response comes with a confirmed transport only and can be sent on; the receipt holds what it was given |
| ReceiptAnswers.ClaimExactly | grafana_jsm_sandbox/forwarder_receipts.py:668-697 | the right to send is granted exactly for the serialized client response of a kept receipt nobody has begun to send |
| ReceiptAnswers.CompleteExactly | grafana_jsm_sandbox/forwarder_receipts.py:699-723 | the end of a delivery is recorded exactly for the claim that began it, once, with a byte count the outcome allows |
| Leases.StepSteps | grafana_jsm_sandbox/forwarder_leases.py:126-312 | every registry operation keeps the invariant and moves every lease only forward |
| Leases.RunSteps | grafana_jsm_sandbox/forwarder_leases.py:126-312 | the same over every run |
| Leases.PruneIdle | grafana_jsm_sandbox/forwarder_leases.py:351-358 | pruning again at the last accepted reading changes nothing |
| Leases.MatchUnique | grafana_jsm_sandbox/forwarder_leases.py:283-312 | sentinels are unique, so the answer of the linear search does not depend on its order |
| Leases.AuthorizedActive | grafana_jsm_sandbox/forwarder_leases.py:283-312 | an authorizing verdict names an active record with this service, sentinel, scope and generation |
| Leases.DeadForever | grafana_jsm_sandbox/forwarder_leases.py:400-410 | a lease that is no longer live never is again |
| Leases.RevocationFence | grafana_jsm_sandbox/forwarder_leases.py:260-312 | once a lease is not live, no check in any later run authorizes it |
| Leases.HeldForever | grafana_jsm_sandbox/forwarder_leases.py:126-133 | a hold is permanent and no check authorizes anything while it lasts |
| LeaseTrace.TRunFollows | grafana_jsm_sandbox/forwarder_leases.py:135-168 | the recorded contact trace follows the registry's own run |
| LeaseTrace.TRunSteady | grafana_jsm_sandbox/forwarder_leases.py:135-168 | over every run the trace of contacts agrees with the registry's heartbeat fields, and every live lease's receiver has been in unbroken contact |
| LeaseTrace.AuthorizedMeansContact | grafana_jsm_sandbox/forwarder_leases.py:330-349 | when a check authorizes a lease, the receiver that registered it has been the only one in contact ever since, with every gap under 15 seconds, up to the check itself |
| LeaseRegistry.Registry.Hold | grafana_jsm_sandbox/forwarder_leases.py:126-133 | holds the registry for good |
| LeaseRegistry.Registry.Prune | grafana_jsm_sandbox/forwarder_leases.py:351-358 | drops exactly the retired records past retention |
| LeaseRegistry.Registry.ExpireAll | grafana_jsm_sandbox/forwarder_leases.py:330-349 | expires exactly the live records past their expiry |
| LeaseRegistry.Registry.RetireConnected | grafana_jsm_sandbox/forwarder_leases.py:400-405 | retires exactly the live records when contact is lost |
| LeaseRegistry.Registry.Tick | grafana_jsm_sandbox/forwarder_leases.py:330-349 | a reading prunes, expires and, after a 15-second gap, disconnects; a backward or faulty reading holds |
| LeaseRegistry.Registry.Handshake | grafana_jsm_sandbox/forwarder_leases.py:135-145 | a receiver takes over: every live lease of the old one is retired first |
| LeaseRegistry.Registry.Heartbeat | grafana_jsm_sandbox/forwarder_leases.py:147-157 | extends the contact of the connected receiver only |
| LeaseRegistry.Registry.Disconnect | grafana_jsm_sandbox/forwarder_leases.py:159-168 | the connected receiver leaves and its leases are retired |
| LeaseRegistry.Registry.CountLive | grafana_jsm_sandbox/forwarder_leases.py:383-388 | counts exactly the records that count against the registration capacity |
| LeaseRegistry.Registry.Register | grafana_jsm_sandbox/forwarder_leases.py:170-222 | adds one registered lease with a new id and sentinel, or answers the matching earlier request again, or refuses without a change |
| LeaseRegistry.Registry.Replay | grafana_jsm_sandbox/forwarder_leases.py:170-222 | a repeated registration gets the same grant exactly when everything it asked for agrees |
| LeaseRegistry.Registry.Activate | grafana_jsm_sandbox/forwarder_leases.py:224-258 | activates a registered lease of the connected receiver, once |
| LeaseRegistry.Registry.Revoke | grafana_jsm_sandbox/forwarder_leases.py:260-281 | retires a live lease as revoked; for one already revoked or expired it errs |
| LeaseRegistry.Registry.Snapshot | grafana_jsm_sandbox/forwarder_leases.py:314-328 | reading the registry only ticks it |
| LeaseRegistry.Registry.Check | grafana_jsm_sandbox/forwarder_leases.py:283-312 | the search loop decides as the value model: authorized exactly for the one live, active, unexpired, matching record |
| LeaseRegistry.Registry.Decide | grafana_jsm_sandbox/forwarder_leases.py:283-312 | the verdict for the record found, expiring it when it is past its time |
| LeaseAnswers.AuthorizesExactly | grafana_jsm_sandbox/forwarder_leases.py:283-312 | a check authorizes a lease exactly when the reading is good, the generation this one, the receiver heard from less than 15 seconds ago, and the lease active, within its expiry and its 270 seconds, and of this service, sentinel and scope |
| LeaseAnswers.RecognizesExactly | grafana_jsm_sandbox/forwarder_leases.py:283-312 | a check recognizes a lease that is active or only registered under the same conditions, the scope being compared for an active one |
| LeaseAnswers.AuthorizesAgain | grafana_jsm_sandbox/forwarder_leases.py:283-312 | an authorization takes nothing away that a later one needs |
| LeaseAnswers.RegisterExactly | grafana_jsm_sandbox/forwarder_leases.py:170-222 | a registration is granted exactly when the receiver in contact asks for an expiry within 270 seconds and either repeats, word for word, one that still lasts, or finds room; the grant has exactly the fields asked for |
| LeaseAnswers.ActivateExactly | grafana_jsm_sandbox/forwarder_leases.py:224-258 | a lease is activated exactly when its receiver is in contact, it lasts, and the launch lies between its registration and now, less than 270 seconds ago; one already active answers only to its own launch |
| LeaseAnswers.RevokeExactly | grafana_jsm_sandbox/forwarder_leases.py:260-281 | a lease is revoked exactly when its receiver is in contact and it still lasts |
| LeaseAnswers.ContactExactly | grafana_jsm_sandbox/forwarder_leases.py:135-168 | who may connect, keep contact and leave, and what becomes of the leases: a new receiver and a leaving one retire all of them |
| GateInvariant.StartInv | grafana_jsm_sandbox/forwarder_dispatch.py:251-284 | a fresh gate, registry and ledger satisfy the joint invariant |
| GateInvariant.StepSteps | grafana_jsm_sandbox/forwarder_dispatch.py:309-982 | every operation of gate, registry or ledger, by anyone and with any clock readings, keeps the joint invariant of flight phase, ledger entry and lease |
| GateInvariant.RunSteps | grafana_jsm_sandbox/forwarder_dispatch.py:309-982 | the same over every interleaved run |
| GateInvariant.ResolveUnique | grafana_jsm_sandbox/forwarder_dispatch.py:491-508 | indexes are unique, so resolving finds the one scope whatever the order of search |
| GateInvariant.SnapshotSteps | grafana_jsm_sandbox/forwarder_dispatch.py:888-945 | taking the registry's and the ledger's snapshots keeps the joint invariant |
| Closeout.AdmittedMeans | grafana_jsm_sandbox/forwarder_dispatch.py:655-736 | an admission rests on an authorization of the flight's own lease, read between two readings of the gate's clock and early enough to connect and answer before the deadline; the ledger entry is then connecting |
| Closeout.WriteMeans | grafana_jsm_sandbox/forwarder_dispatch.py:762-811 | a write fence passes only for the admitted flight of this token, its lease authorized again, and leaves the ledger entry dispatched |
| Closeout.RevocationFence | grafana_jsm_sandbox/forwarder_dispatch.py:655-811 | once a lease is gone from the registry or the registry is held, no admission and no write fence for any of its flights succeeds in any continuation of the whole system |
| Closeout.QuiescentSound | grafana_jsm_sandbox/forwarder_dispatch.py:888-945 | a quiescent verdict read with the gate's clock not behind the ledger's leaves no flight of the lease admitted or writing |
| Closeout.QuiescentFinal | grafana_jsm_sandbox/forwarder_dispatch.py:879-945 | and then no flight of the lease is admitted or written in any later run |
| Closeout.QuiescentGap | grafana_jsm_sandbox/forwarder_dispatch.py:888-945 | a flight that stands past its admission under a quiescent verdict has its deadline after the gate's reading and not after the ledger's, and at least 2,000 milliseconds from zero |
| CloseoutTrust.Straddles | grafana_jsm_sandbox/forwarder_dispatch.py:684-736 | a run from the start, every reading the same, leads to a system with a flight admitted with the shortest deadline and its lease revoked |
| CloseoutTrust.WrongVerdict | grafana_jsm_sandbox/forwarder_dispatch.py:888-945 | there a gate reading before that deadline and a ledger reading from it on give a quiescent verdict beside an open flight |
| CloseoutTrust.TrustedExactly | grafana_jsm_sandbox/forwarder_dispatch.py:888-945 | with a given pair of readings every quiescent verdict of every reachable system is right exactly when the gate's reading is at least the ledger's, or the ledger's is below 2,000 milliseconds, before which no admitted flight can end |
| ScopeStore.Store.Remove | grafana_jsm_sandbox/forwarder_dispatch.py:317-322 | removes one scope from all four maps and gives back its charge |
| ScopeStore.Store.Prune | grafana_jsm_sandbox/forwarder_dispatch.py:324-327 | drops exactly the expired scopes, indexes and bytes included |
| ScopeStore.Store.Forget | grafana_jsm_sandbox/forwarder_dispatch.py:405-489 | drops exactly the scopes of leases the registry no longer knows |
| ScopeStore.Store.Over | grafana_jsm_sandbox/forwarder_dispatch.py:329-333 | true exactly when one more scope of this charge would pass the count or the byte cap |
| ScopeStore.Store.Insert | grafana_jsm_sandbox/forwarder_dispatch.py:405-489 | adds one scope under its lease and its index, with its charge |
| DispatchGate.Gate.SweepOverdue | grafana_jsm_sandbox/forwarder_dispatch.py:309-315 | marks exactly the open flights past their deadline |
| DispatchGate.Gate.ReadClock | grafana_jsm_sandbox/forwarder_dispatch.py:335-349 | a faulty or backward reading holds the gate and changes nothing else |
| DispatchGate.Gate.InstallScope | grafana_jsm_sandbox/forwarder_dispatch.py:396-403 | installs a scope for an active matching lease only, within capacity, answering the same installation again idempotently; gate, registry and store end as in the value model |
| DispatchGate.Gate.AddScope | grafana_jsm_sandbox/forwarder_dispatch.py:405-489 | the capacity and index checks of an installation, and its insertion |
| DispatchGate.Gate.Resolve | grafana_jsm_sandbox/forwarder_dispatch.py:491-508 | finds the scope of a service and sentinel, or nothing, without changing flights |
| DispatchGate.Gate.Precheck | grafana_jsm_sandbox/forwarder_dispatch.py:510-529 | answers whether a request may go on; the gate and the ledger stay as they were, the registry is ticked and checked |
| DispatchGate.Gate.Deny | grafana_jsm_sandbox/forwarder_dispatch.py:531-567 | records one finalized receipt for a request that is refused before it is admitted |
| DispatchGate.Gate.Reserve | grafana_jsm_sandbox/forwarder_dispatch.py:571-632 | one ledger entry and one flight under the same id, or neither |
| DispatchGate.Gate.FinalizeAndDrop | grafana_jsm_sandbox/forwarder_dispatch.py:634-653 | finalizes a flight's entry and drops the flight |
| DispatchGate.Gate.CheckedLease | grafana_jsm_sandbox/forwarder_dispatch.py:655-682 | the lease check inside the two fences, with the clock read before and after it |
| DispatchGate.Gate.Admit | grafana_jsm_sandbox/forwarder_dispatch.py:684-736 | the first fence: the new state of gate, registry, ledger and store, and the answer, for every denial in order |
| DispatchGate.Gate.Connect | grafana_jsm_sandbox/forwarder_dispatch.py:695-736 | moves the flight to admitted and its entry to connecting together |
| DispatchGate.Gate.AttachAbort | grafana_jsm_sandbox/forwarder_dispatch.py:748-760 | attaches one abort to an admitted or writing flight |
| DispatchGate.Gate.BeginWrite | grafana_jsm_sandbox/forwarder_dispatch.py:762-807 | the second fence, likewise |
| DispatchGate.Gate.Dispatch | grafana_jsm_sandbox/forwarder_dispatch.py:773-807 | moves the flight to writing and its entry to dispatched together |
| DispatchGate.Gate.Finish | grafana_jsm_sandbox/forwarder_dispatch.py:813-853 | finalizes with the given outcome, keeping the flight when the ledger rejects the outcome |
| DispatchGate.Gate.Release | grafana_jsm_sandbox/forwarder_dispatch.py:855-865 | forgets a flight |
| DispatchGate.Gate.CountEntries | grafana_jsm_sandbox/forwarder_dispatch.py:888-945 | counts the ledger's pending, in-flight and uncertain entries of a lease and their latest deadline |
| DispatchGate.Gate.CountOverdue | grafana_jsm_sandbox/forwarder_dispatch.py:888-945 | counts the overdue flights of a lease |
| DispatchGate.Gate.Closeout | grafana_jsm_sandbox/forwarder_dispatch.py:879-945 | the verdict, the three counts, the lease view and the drain deadline, with the new state of all three machines |
| DispatchGate.Gate.Shutdown | grafana_jsm_sandbox/forwarder_dispatch.py:947-982 | closes the gate once, firing every attached abort and counting what was open |
| DispatchGate.Gate.FireAborts | grafana_jsm_sandbox/forwarder_dispatch.py:947-982 | the loop over flights: each attached abort is fired, and the counts are those of the flights found |
| GateAnswers.CheckedExactly | grafana_jsm_sandbox/forwarder_dispatch.py:655-682 | the lease check inside the fences passes exactly when the registry authorizes the flight's own lease between two good readings of the gate |
| GateAnswers.EntryBehind | grafana_jsm_sandbox/forwarder_dispatch.py:655-807 | in every system within the joint invariant the ledger has the flight's entry open, in the flight's own phase, exactly while its clock is before the deadline |
| GateAnswers.AdmitExactly | grafana_jsm_sandbox/forwarder_dispatch.py:684-736 | an admission is granted exactly for a waiting flight of this token and sentinel without a permit, on a ready gate, its lease authorized, 2,000 milliseconds or more before its deadline and with the ledger in time; flight and entry then move on together, and otherwise the flight is dropped and the denial recorded with its reason |
| GateAnswers.WriteExactly | grafana_jsm_sandbox/forwarder_dispatch.py:762-807 | the write fence passes exactly for an admitted flight under the same conditions with 1,500 milliseconds left, and grants exactly the earlier of 10,000 milliseconds after the check and 1,000 before the deadline; flight and entry are then writing and dispatched, and otherwise the flight is dropped and a failed connection recorded |
| GateAnswers.ReserveExactly | grafana_jsm_sandbox/forwarder_dispatch.py:571-632 | a flight is reserved exactly on a ready gate for an installed scope, on an enabled route of its service and scope, with a deadline the lease outlives, a free place, and the ledger's consent |
| GateAnswers.FinishExactly | grafana_jsm_sandbox/forwarder_dispatch.py:813-853 | a flight is finished exactly when it is admitted under this token, not overdue, the ledger in time and the outcome one its phase admits; its receipt says what it was given |
| GateAnswers.FinishRejects | grafana_jsm_sandbox/forwarder_dispatch.py:813-853 | an outcome that does not fit keeps the flight exactly when everything else would have recorded it; any other failure drops it |
| GateAnswers.PrecheckExactly | grafana_jsm_sandbox/forwarder_dispatch.py:510-529 | a request may go on exactly when the gate is ready, its scope installed and its lease authorized |
| GateAnswers.InstallExactly | grafana_jsm_sandbox/forwarder_dispatch.py:396-489 | a scope is installed exactly on a ready gate, for a manifest of the grant, whose lease stands at the check and is live in the same words at the snapshot, before its expiry, and with a place for it; the same installation again changes nothing |
| GateAnswers.VerdictExactly | grafana_jsm_sandbox/forwarder_dispatch.py:888-945 | every verdict by what the closeout found, overdue flights before entries in flight, and nothing from an unknown lease or a held machine |
| Exchange.ForeignKeeps | grafana_jsm_sandbox/forwarder_exchange.py:262-490 | any step of anyone else keeps what the exchange relies on |
| Exchange.ActKeeps | grafana_jsm_sandbox/forwarder_exchange.py:262-490 | every step of the exchange, with every failure of gate and channel, keeps it too |
| Exchange.InterleaveKeeps | grafana_jsm_sandbox/forwarder_exchange.py:262-490 | the same over every interleaving |
| Exchange.HonestReceipts | grafana_jsm_sandbox/forwarder_exchange.py:368-490 | over every interleaving send is called at most once; if it was, the ledger's entry is past the write fence; a receipt of not dispatched or failed means it was never called |
| Exchange.SendAfterFence | grafana_jsm_sandbox/forwarder_exchange.py:467-490 | a send starts only once, after the write fence: its entry is dispatched, or has since been abandoned or pruned by the ledger |
| Exchange.FallbackLegal | grafana_jsm_sandbox/forwarder_exchange.py:192-211 | the fallback outcome is legal for the flight's phase in every reachable state |
| Exchange.DeliveredBody | grafana_jsm_sandbox/forwarder_exchange.py:192-206 | the body handed to the client is the one the receipt records, so claiming its bytes always succeeds |
| ExchangeAnswers.ClosingEnds | grafana_jsm_sandbox/forwarder_exchange.py:178-211 | from any closing point the exchange ends with its outcome, or with the fallback where that does not fit, within two tries |
| ExchangeAnswers.FencedEnds | grafana_jsm_sandbox/forwarder_exchange.py:411-490 | however it goes after the write fence, while the ledger is in time, the exchange ends with the receipt that tells it, having called send once |
| ExchangeAnswers.UnconnectedEnds | grafana_jsm_sandbox/forwarder_exchange.py:368-459 | a connection that fails is told as a certain failure, without a send |
| ExchangeAnswers.Opens | grafana_jsm_sandbox/forwarder_exchange.py:262-408 | an undisturbed exchange of a servable request under a standing lease reaches the write fence |
| ExchangeAnswers.Served | grafana_jsm_sandbox/forwarder_exchange.py:262-490 | from any system within the joint invariant such an exchange calls send once and ends with the receipt of how it went; a response that can be sent on and is found fine is confirmed, and reaches the client as it is |
| ControlFence.StartInv | grafana_jsm_sandbox/forwarder_control.py:204-218 | a fresh server, with no session yet, satisfies the ownership fence |
| ControlFence.StepKeeps | grafana_jsm_sandbox/forwarder_control.py:279-413 | every step of every control session, and of everyone else, also between the two halves of a takeover, keeps the ownership fence: what an earlier owner was granted is gone before the next one starts |
| ControlFence.RunKeeps | grafana_jsm_sandbox/forwarder_control.py:279-413 | the same over every interleaving |
| ControlFence.RefusesExactly | grafana_jsm_sandbox/forwarder_control_scope.py:203-250 | a closeout observation is refused exactly when a flight is overdue, when the verdict is unknown though the lease is known or was to be revoked, or when it was to be revoked and is neither revoked nor forgotten; no other incoherence can come from the gate |
| ControlFence.ReplacedIsHarmless | grafana_jsm_sandbox/forwarder_control.py:279-413 | in every interleaving from the start a session that is not the owner changes nothing by its commands or by leaving, gains the registry nothing, never installs a scope for a lease it was granted, and leaves the registry as time alone would, except exactly when the closeout it observes is refused and the registry is not held anyway |
| ControlWitness.ReplacedHolds | grafana_jsm_sandbox/forwarder_control_scope.py:203-250 | a run from the start in which a replaced session, observing an overdue flight of its own lease, holds the registry of the connected new owner |
| ControlAnswers.TakesOverExactly | grafana_jsm_sandbox/forwarder_control.py:280-291 | in every interleaving from the start a new session becomes the owner exactly when the registry takes both readings of the takeover; it is then the connected receiver and every lease granted to another session is gone; otherwise the registry is held and the ownership stays |
| ControlAnswers.RunConnected | grafana_jsm_sandbox/forwarder_control.py:204-413 | over every interleaving, unless the registry is held or ownership is moving, the registry's receiver is the owner |
| UpstreamChannel.NextKeeps | grafana_jsm_sandbox/forwarder_upstream.py:1132-1332 | every step of every thread keeps the channel's invariant |
| UpstreamChannel.RunKeeps | grafana_jsm_sandbox/forwarder_upstream.py:1132-1332 | the same over every interleaving |
| UpstreamChannel.SocketSafe | grafana_jsm_sandbox/forwarder_upstream.py:1132-1332 | the socket is closed at most once, last, and never while I/O is active; a close that waited is carried out when that ends; it is shut down once exactly when the channel is aborted; the credential is gone when not needed; what went out is a prefix of the request, all of it once the phase says sent |
| ChannelAnswers.StartsExactly | grafana_jsm_sandbox/forwarder_upstream.py:1145-1256 | over every interleaving a send starts exactly on a channel still open, and a receive exactly on one that has sent everything, neither aborted nor closed |
| ChannelAnswers.AbortStops | grafana_jsm_sandbox/forwarder_upstream.py:1258-1332 | once aborted or asked to close, no interleaving sends or asks for bytes again, except in the one call cleared before |
| ChannelAnswers.Delivers | grafana_jsm_sandbox/forwarder_upstream.py:1145-1312 | written without disturbance, in whatever portions the socket takes, the request is sent in full and the response received |
| UpstreamChannel.OneSend | grafana_jsm_sandbox/forwarder_upstream.py:1145-1256 | at most one send is ever started |
| UpstreamChannel.NoSecondSend | grafana_jsm_sandbox/forwarder_upstream.py:1145-1256 | none is started once the channel has left its open phase |
| AccountingPolicy.TallyRows | grafana_jsm_sandbox/accounting_policy.py:280-307 | the loops over earlier attempts compute the fold of the rows, with the same first error |
| AccountingPolicy.CountedSums | grafana_jsm_sandbox/accounting_policy.py:280-307 | the scratch totals are, for every lifecycle, week and pool, the spend and count of the rows that belong to it |
| AccountingPolicy.Accepted | grafana_jsm_sandbox/accounting_policy.py:333-404 | an accepted reservation was made with nothing held and a complete population, keeps every ceiling including costs, and continues its lifecycle's lineage; `PolicyAnswers.EvaluateExactly` gives the whole condition |
| PolicyAnswers.ConfigureExactly | grafana_jsm_sandbox/accounting_policy.py:333-360 | lifecycles are accepted exactly when each week agrees with the current one and with the earlier, each profile is known, and no id and no slot of a week comes twice |
| PolicyAnswers.RowsExactly | grafana_jsm_sandbox/accounting_policy.py:280-332 | attempts are counted exactly when each, against those before it, is in time order within its week, agrees with the weeks, brings four new ids, is attributed as its kind calls for, continues its lifecycle, and has an exposure in force of at least 3,000,000 |
| PolicyAnswers.HistoryExactly | grafana_jsm_sandbox/accounting_policy.py:333-388 | a history is counted exactly when it is complete, unheld, within its sizes, in order and within every ceiling |
| PolicyAnswers.EvaluateExactly | grafana_jsm_sandbox/accounting_policy.py:231-404 | a reservation is proposed exactly when such a history and the candidate as one more attempt are acceptable: 49,999,999 in all with costs, 30,000,000 and ten attempts per lifecycle and per weekly pool; the proposal carries the candidate's bound and the sums it brings about |
| PolicyAnswers.NothingStale | grafana_jsm_sandbox/accounting_policy.py:231-247 | nothing is proposed while any bound in the attempts, the costs or the candidate has run out |
| AccountingTransition.ReplayAll | grafana_jsm_sandbox/accounting_transition.py:313-325 | the replay loop computes the fold of the events, with the same first error |
| AccountingTransition.PrefixReplays | grafana_jsm_sandbox/accounting_transition.py:313-325 | a prefix of a replayable history is replayable |
| AccountingTransition.ReplayKeeps | grafana_jsm_sandbox/accounting_transition.py:302-325 | replay keeps the very events it was given, numbered from one, chained by digest and of one owner |
| AccountingTransition.LiveEqualsReplay | grafana_jsm_sandbox/accounting_transition.py:302-325 | applying an event to a replayed history agrees with replaying the longer one; what the live path refuses or takes for a duplicate, replay refuses |
| HistoryAnswers.ReserveExactly | grafana_jsm_sandbox/accounting_transition.py:130-183 | a reservation is accepted exactly from the current origin, for a lifecycle of that origin, under new ids, in the week of its instant, for the fixed amount, on terms the policy accepts; it adds its attempt and nothing else |
| HistoryAnswers.ChangeExactly | grafana_jsm_sandbox/accounting_transition.py:97-299 | every other kind of event likewise, with its literal limits, and each adds exactly its own row |
| HistoryAnswers.ReplayExactly | grafana_jsm_sandbox/accounting_transition.py:216-325 | a stream replays exactly when it has 1 to 8,192 events, a genesis opens it and every event follows those before it; what it projects to is a function of the events alone, kind by kind |
| HistoryAnswers.InForce | grafana_jsm_sandbox/accounting_transition.py:120-183 | in every replayable history, when a reservation is made, every bound recorded so far and its own is still good, and reservations are strictly apart in time |
| AccountingBudget.ReserveSound | grafana_jsm_sandbox/accounting_transition.py:130-183 | every accepted reservation keeps the ceilings and the lineage, and is accepted only with no hold on record |
| AccountingBudget.BudgetSafety | grafana_jsm_sandbox/accounting_policy.py:277-404 | every replayable history reserves at most 49,999,999 in all, in at most 16 reservations; at most 30,000,000 and 10 attempts per lifecycle and per weekly pool; within a lifecycle no initial attempt follows a retry and every retry names its immediate predecessor; nothing is reserved after a hold |
| AccountingBudget.ReservedWithCosts | grafana_jsm_sandbox/accounting_transition.py:130-183 | a reservation is accepted only while everything committed, costs included, leaves room for it |
| AccountingBudget.CostAccepted | grafana_jsm_sandbox/accounting_transition.py:120-127 | a cost is accepted exactly when its id is new, its time is valid and there is a free row, whatever its size: no ceiling is asked |
| AccountingBudget.CostsUnchecked | grafana_jsm_sandbox/accounting_transition.py:120-127 | a replayable history whose costs alone pass the experiment ceiling |
| AccountingBudget.CeilingKept | grafana_jsm_sandbox/accounting_transition.py:120-183 | after any accepted new event, what is committed stays within the ceiling exactly when the event is no cost, or its upper bound fits in what is left |
| AccountingBudget.WithinExactly | grafana_jsm_sandbox/accounting_transition.py:120-183 | over every replayable history, what is committed at the end is within the ceiling exactly when every cost fitted in what was left when it was appended |
| AccountingBudget.OverForever | grafana_jsm_sandbox/accounting_transition.py:130-183 | once over the ceiling, no continuation is ever within it again and none accepts another reservation |
| AccountingStore.NextSlot | grafana_jsm_sandbox/accounting_store.py:332-361 | writing the next anchor leaves the new anchor readable, or, torn, the old one beside an unreadable slot |
| AccountingStore.HoldLands | grafana_jsm_sandbox/accounting_store.py:411-421 | writing a hold to both slots, stopped anywhere, keeps the rows and leaves either the old anchor or the held one |
| AccountingStore.AppendLands | grafana_jsm_sandbox/accounting_store.py:543-614 | committing a row and then its anchor, stopped anywhere, leaves the old rows a prefix and the anchor at the old or the new head |
| AccountingStore.StepKeeps | grafana_jsm_sandbox/accounting_store.py:465-734 | every create, append and open, with every fault, keeps the image sound and loses nothing |
| AccountingStore.RunKeeps | grafana_jsm_sandbox/accounting_store.py:465-734 | the same over every run |
| AccountingStore.CrashSafe | grafana_jsm_sandbox/accounting_store.py:332-614 | over every run with every fault the newest readable anchor names a prefix of the rows and lags by at most one, every receipt names a present and anchored row, and an open writer's anchor, rows and projection agree |
| AccountingStore.NothingIsLost | grafana_jsm_sandbox/accounting_store.py:411-421 | rows, receipts and a hold in the newest slot outlive every continuation |
| AccountingStore.FrozenForever | grafana_jsm_sandbox/accounting_store.py:674-734 | an image one row ahead of its anchor, held or unreadable, is never written again: no continuation adds a row or issues a receipt |
| LedgerStore.Ledger.Write | grafana_jsm_sandbox/accounting_store.py:400-408 | one durable write of a row or a slot |
| LedgerStore.Ledger.WriteBoth | grafana_jsm_sandbox/accounting_store.py:400-421 | two writes in order, interrupted as the fault says; success only when both landed |
| LedgerStore.Ledger.Create | grafana_jsm_sandbox/accounting_store.py:617-671 | the image, the handle and the receipts after creating a ledger, under every fault |
| LedgerStore.Ledger.Append | grafana_jsm_sandbox/accounting_store.py:543-614 | the same after an append: duplicate, conflict, refused, committed or interrupted; a receipt is issued exactly when it is returned |
| LedgerStore.Ledger.HoldOn | grafana_jsm_sandbox/accounting_store.py:411-421 | a conflicting event holds the ledger in both slots and issues no receipt |
| LedgerStore.Ledger.Open | grafana_jsm_sandbox/accounting_store.py:674-734 | the same after opening: lagging, held, torn and unreadable images included; `StoreAnswers.OpenExactly` says which opens |
| StoreAnswers.RowsReplay | grafana_jsm_sandbox/accounting_store.py:424-462 | over every run with every fault the rows replay exactly when the three identities of the first event differ; otherwise it stays the only row |
| StoreAnswers.OpenExactly | grafana_jsm_sandbox/accounting_store.py:674-734 | in every reachable world an unreadable or held image is left as it is, one in step is opened for writing on the replay of its rows with nothing written, and a hold is written exactly when the rows are one ahead of the anchor or never replayed |
| StoreAnswers.Reopens | grafana_jsm_sandbox/accounting_store.py:674-734 | whoever held the ledger open for writing can crash and open it again, and finds it as it was |
| StoreAnswers.CreateExactly | grafana_jsm_sandbox/accounting_store.py:617-671 | an undisturbed creation from a receiver's first event with different identities opens a ledger of that one row; nothing is created over another ledger |
| StoreAnswers.CreatedInVain | grafana_jsm_sandbox/accounting_store.py:617-671 | a first event whose identities coincide is stored all the same, and the first opening holds its ledger for good |
| StoreAnswers.AppendExactly | grafana_jsm_sandbox/accounting_store.py:543-614 | in every reachable world with a handle that can write, an undisturbed append issues a receipt exactly for an event on record as it is or one that continues the ledger, which is then the last row, anchored; an id on record with other content holds the ledger; anything else changes nothing |
| ArchiveBytes.PackFrames | grafana_jsm_sandbox/accounting_archive_segment.py:176-190 | the encoding loop builds the payload of the frames: number, length, digest and body one after the other |
| ArchiveBytes.DecodeFrames | grafana_jsm_sandbox/accounting_archive_segment.py:128-153 | the decoding loop, with its advancing position, reads as the recursive definition does, with the same first error |
| ArchiveBytes.FramesRead | grafana_jsm_sandbox/accounting_archive_segment.py:128-190 | reading a payload anywhere in a byte string gives back the very frames it was made of |
| ArchiveBytes.FramesSound | grafana_jsm_sandbox/accounting_archive_segment.py:128-153 | whatever reads as that many frames to the end is the payload of those frames, numbered in order |
| ArchiveBytes.HeaderInjective | grafana_jsm_sandbox/accounting_archive_segment.py:191-211 | two headers with the same canonical bytes are the same header, so the payload length and the digests are read as written |
| ArchiveBytes.SegmentReads | grafana_jsm_sandbox/accounting_archive_segment.py:99-214 | reading the bytes of a segment gives its header and its frames back |
| ArchiveBytes.SegmentSound | grafana_jsm_sandbox/accounting_archive_segment.py:99-128 | every byte string that reads as a segment is exactly the encoding of the header and frames it gives, lengths and sizes included |
| ArchiveCodec.BytesDetermine | grafana_jsm_sandbox/accounting_archive_segment.py:99-214 | two segments with the same bytes are the same segment, under any codec that tells their own events and ids apart |
| ArchiveCodec.StretchBytes | grafana_jsm_sandbox/accounting_archive_segment.py:169-214 | a stretch of a replayable history is encoded exactly when its bytes fit; then they read back as its header and frames, and it decodes to the replay of everything up to its end; otherwise capacity is reported |
| AccountingArchive.UnframeAll | grafana_jsm_sandbox/accounting_archive_segment.py:99-166 | the decoding loop checks number, predecessor and owner of every frame as the recursive definition does |
| AccountingArchive.StretchEncodes | grafana_jsm_sandbox/accounting_archive_segment.py:169-214 | any stretch of a replayable history encodes, unless it is too big, to its segment and the projection of everything up to its end |
| AccountingArchive.StretchDecodes | grafana_jsm_sandbox/accounting_archive_segment.py:99-166 | and decoding that segment gives the same projection |
| ArchiveAnswers.DecodeExactly | grafana_jsm_sandbox/accounting_archive_segment.py:99-166 | a segment is accepted on its prior exactly when some replayable history goes on from that prior by just this segment, and decodes to that history's replay |
| ArchiveAnswers.EncodeExactly | grafana_jsm_sandbox/accounting_archive_segment.py:169-214 | events are encoded exactly when the prior is genuine, they go on from it and the bytes fit; the segment and the projection are then those of the longer history |
| AccountingArchive.SplitVerifies | grafana_jsm_sandbox/accounting_archive_index.py:54-70 | any contiguous split of a prefix into segments verifies to the replay of that prefix |
| AccountingArchive.BuildRows | grafana_jsm_sandbox/accounting_archive_index.py:73-102 | the nested loops that derive the rows compute the owners and the event rows |
| AccountingArchive.OwnersAre | grafana_jsm_sandbox/accounting_archive_index.py:73-102 | an id is owned exactly when some event so far claims it, and then by the first that does |
| AccountingArchive.ClaimedIs | grafana_jsm_sandbox/accounting_transition.py:195-299 | a replayed history has claimed exactly the ids its events claim, and its event ids are distinct |
| AccountingArchive.IndexNeverConflicts | grafana_jsm_sandbox/accounting_archive_index.py:73-150 | deriving the index never reports a claim conflict; it fails on bad segments or on size only, and otherwise maps every claimed id to its first claimer in the segment that holds it |
| ArchiveAnswers.VerifiedExactly | grafana_jsm_sandbox/accounting_archive_index.py:54-70 | segments are accepted exactly when they are some replayable history cut up, and stand for its replay |
| ArchiveAnswers.BuildExactly | grafana_jsm_sandbox/accounting_archive_index.py:54-150 | the index is built exactly from 1 to 256 accepted segments whose rows, one per event and one per claimed id, are at most 65,536 and fit |
| AccountingArchive.SiftAll | grafana_jsm_sandbox/accounting_archive_overlap.py:41-93 | the comparison loop separates overlap from suffix as the recursive definition does |
| AccountingArchive.UnionEqualsReplay | grafana_jsm_sandbox/accounting_archive_overlap.py:41-93 | for every replayable history, every split of a prefix and every window of active rows that starts inside or right after it, comparison hits a size cap or returns the replay of the whole history, with overlap plus suffix equal to the active count |
| ArchiveAnswers.CompareExactly | grafana_jsm_sandbox/accounting_archive_overlap.py:41-93 | the comparison succeeds exactly when the index is the one its segments give and there is one replayable history of which the segments are the beginning, cut up, the active rows a window that starts no later than one past it and runs to the end, and the head the last event |
| ArchiveAnswers.ReunitedCompares | grafana_jsm_sandbox/accounting_archive_overlap.py:41-93 | and then it returns that history's replay and the sizes of the parts |
| Journal.Decided | grafana_jsm_sandbox/journal_reducer.py:3104-3205 | an accepted commit stands next in number, event and digest chain, in the running boot and not before its clock, and was decided by the one check its shape calls for |
| JournalDedupe.SuppressedIsPending | grafana_jsm_sandbox/journal_reducer.py:645-659 | a suppressed admission brings nothing that is not already pending, and agrees with it where its own group holds it |
| JournalDedupe.AdmitTransparent | grafana_jsm_sandbox/journal_reducer.py:645-706 | one admission changes group, status and values exactly as if nothing had been suppressed |
| JournalDedupe.StepTransparent | grafana_jsm_sandbox/journal_reducer.py:3048-3101 | every accepted commit keeps that, and only admissions touch what is pending |
| JournalDedupe.Transparent | grafana_jsm_sandbox/journal_reducer.py:645-706 | over every accepted run what is pending is what a fold that never suppresses gives |
| JournalDedupe.LatestAdmissionWins | grafana_jsm_sandbox/journal_reducer.py:645-706 | after every accepted history a fingerprint is pending exactly when some admission carried it, with the group, status and values of the latest one that did |
| JournalDedupe.SuppressedExactly | grafana_jsm_sandbox/journal_reducer.py:645-706 | in every accepted history an admission is suppressed exactly when it is complete and repeats the latest admission of its group, itself complete, fingerprint by fingerprint in status and values; of the others those are fresh that bring only fingerprints never brought before |
| JournalCommits.GenesisExactly | grafana_jsm_sandbox/journal_reducer.py:2331-2354 | a first commit is accepted exactly on nothing at all with bounds in range, and sets them |
| JournalCommits.RestartExactly | grafana_jsm_sandbox/journal_reducer.py:2357-2390 | a restart is accepted exactly in a boot never seen, naming the boot and the head it found, within the total; it starts a new boot and holds dispatch, and changes nothing else |
| JournalCommits.CapacityExactly | grafana_jsm_sandbox/journal_reducer.py:2393-2417 | a capacity hold is accepted exactly for a limit not held yet that what was asked for would pass, measured as the journal measures it |
| JournalCommits.RefusalExactly | grafana_jsm_sandbox/journal_reducer.py:2420-2447 | a refusal is accepted exactly when numbered next, under a new key, at most 256 in all and 192 of those that resolve nothing |
| JournalCommits.ResumeExactly | grafana_jsm_sandbox/journal_reducer.py:2450-2487 | a resume is accepted exactly first after the restart, by one who saw the recovered head and everything pending, with no claim ever made; only the restart hold goes |
| JournalCommits.AdmissionExactly | grafana_jsm_sandbox/journal_reducer.py:3048-3101 | an admission and its dedupe record are accepted exactly together, next and current, within the three limits, with every computed field as the journal computes it; they add one admission, its baseline and its updates |
| JournalHolds.AdvancingNeedsUnheld | grafana_jsm_sandbox/journal_reducer.py:1106-1107 | each of the six steps that advance a run needs a journal free of dispatch and run holds |
| JournalHolds.BarredStep | grafana_jsm_sandbox/journal_reducer.py:2450-2487 | a journal barred by a capacity hold, a run hold or a restart over claims stays barred under every commit and takes no advancing step |
| JournalHolds.BarredForever | grafana_jsm_sandbox/journal_reducer.py:615-630 | no continuation of a barred journal ever adds an initial intent, run intent, launch, attestation, release intent or effect intent |
| JournalHolds.BarredBy | grafana_jsm_sandbox/journal_reducer.py:2357-2417 | every accepted capacity hold, run hold, and restart with any claim outstanding bars the journal |
| JournalHolds.ResumeReopens | grafana_jsm_sandbox/journal_reducer.py:2450-2487 | an accepted resume, with the restart hold the only one, leaves the journal unheld; it was accepted with no claim outstanding |
| JournalHolds.NeverBoth | grafana_jsm_sandbox/journal_reducer.py:1026-1169 | second-attempt and first-attempt intents never coexist, and second attempts imply a run hold, over every run |
| JournalChain.LaunchKeeps | grafana_jsm_sandbox/journal_reducer.py:1427-1520 | a guarded launch rests on its run intent and sets its three deadlines, keeping the chain |
| JournalChain.EffectKeeps | grafana_jsm_sandbox/journal_reducer.py:1724-1793 | a guarded effect lies after the observed release and inside the window of the launch and of its grant; `JournalOrder.EffectsEnd` and `JournalClaims.EffectableExactly` say what else it needs |
| JournalChain.ActionKeeps | grafana_jsm_sandbox/journal_reducer.py:1862-1939 | a guarded cleanup action is taken before the hard deadline; a signal only after every grant of the launch was revoked |
| JournalChain.ClaimKeeps | grafana_jsm_sandbox/journal_reducer.py:949-2274 | every guarded claim of every family, second attempts included, keeps the chain: predecessors present, commits increasing, readings ordered within the boot, read-backs numbered and bounded |
| JournalChain.SecondAttemptOrder | grafana_jsm_sandbox/journal_reducer.py:949-1239 | in every reachable journal a second-attempt intent names a job that was held before it, for the same admission, and its confirmation, if any, was committed after it |
| JournalChain.StepWhole | grafana_jsm_sandbox/journal_reducer.py:3104-3297 | every accepted commit keeps the chain whole; boot ids are never reused, so readings of different boots are never compared |
| JournalChain.RunWhole | grafana_jsm_sandbox/journal_reducer.py:3104-3297 | the same over every run |
| JournalChain.EffectWindow | grafana_jsm_sandbox/journal_reducer.py:1316-1793 | in every reachable journal an effect has its whole chain behind it: commits strictly increasing from the initial intent on, one boot, and origin, attestation, each activation, intended release, observed release, effect and expiry in order, the expiry within the work deadline and the grant's own |
| JournalChain.LaunchInOneBoot | grafana_jsm_sandbox/journal_reducer.py:1427-1520 | a launch is accepted only in the boot in which its initial intent, confirmation and run intent were committed |
| JournalOrder.EffectsEnd | grafana_jsm_sandbox/journal_reducer.py:1724-1793 | in every reachable journal each effect, like the release that allowed it, was committed before every cleanup action and before the process was observed, and no attestation follows the process |
| JournalOrder.CleanupInOrder | grafana_jsm_sandbox/journal_reducer.py:1862-1939 | in every reachable journal each revocation names a grant of the launch, none twice; each signal comes once, after the attestation and after all revocations, an interrupt before a kill; and there are at most two more actions than grants |
| JournalOrder.ClaimedOnce | grafana_jsm_sandbox/journal_reducer.py:1026-1239 | in every reachable journal nothing is claimed twice and every family is within its size: one first attempt, run holds of different admissions, second attempts without a common identity, ledger counterparts in different rows, at most 64 effects with flights and receipts of their own |
| JournalOrder.RunsUndisturbed | grafana_jsm_sandbox/journal_reducer.py:1556-1579 | every step from the launch to the last effect is accepted only with no hold, in the boot and before the work deadline of the launch, while exactly the fingerprints reserved for the run are pending under its admission |
| JournalKeeps.AppendOnly | grafana_jsm_sandbox/journal_reducer.py:3208-3297 | over every continuation of every reachable journal each claim stays on record as it was made |
| JournalKeeps.NoIdTwice | grafana_jsm_sandbox/journal_reducer.py:1533-1557 | no two claims of a run, however far apart, carry the same event id |
| JournalWitness.ClaimExactly | grafana_jsm_sandbox/journal_reducer.py:3104-3205 | a claim record is accepted exactly when it stands next, in the running boot and not before its clock, meets its guard and fits; it then adds its claim and nothing else |
| JournalWitness.GoesAllTheWay | grafana_jsm_sandbox/journal_reducer.py:949-2274 | an accepted history in which every stage of a run is entered, with an effect received and read back, a grant revoked, the process observed and the run assessed |
| JournalClaims.AttemptExactly | grafana_jsm_sandbox/journal_reducer.py:949-1239 | in a reachable journal run holds, second and first attempts and their confirmations are accepted exactly under the stated conditions: the rest of what the code compares follows from the journal's past |
| JournalClaims.LaunchableExactly | grafana_jsm_sandbox/journal_reducer.py:1427-1520 | a launch likewise: its run intent on record and undisturbed, no launch yet, a new id, and one grant per service, in order, distinct, expiring within the work window |
| JournalClaims.EffectableExactly | grafana_jsm_sandbox/journal_reducer.py:1724-1793 | an effect likewise: undisturbed and before the work deadline, the release observed, no process and no cleanup yet, new ids, a route of its service, a grant of that service with its scope that it does not outlive, a flight and a receipt of its own, at most 64 |
| JournalClaims.ActionableExactly | grafana_jsm_sandbox/journal_reducer.py:1862-1939 | a cleanup action likewise: before the hard deadline, a grant of the launch not revoked yet while nothing but revocations was done, or a signal after all of them |
| JournalClaims.GuardExactly | grafana_jsm_sandbox/journal_reducer.py:949-2274 | all nineteen claim kinds likewise |
| JournalClaims.AcceptedExactly | grafana_jsm_sandbox/journal_reducer.py:3104-3205 | every reachable journal accepts a claim exactly when it stands next, fits its kind's conditions, is within its kind's size, and its region has room |
| JournalAccounting.PendingSize | grafana_jsm_sandbox/journal_reducer.py:645-706 | the recorded pending count is the size of the new pending map, suppressed or not |
| JournalAccounting.StepCounts | grafana_jsm_sandbox/journal_reducer.py:3048-3241 | every accepted commit adds exactly its charge, ends within the total, within the ordinary region if it is of an ordinary kind, and keeps every counter |
| JournalAccounting.Accounted | grafana_jsm_sandbox/journal_reducer.py:3208-3241 | in every reachable journal the bytes are the sum of body lengths plus 384 per record; admissions are the last arrival number and the number of admissions; the pending size is the last recorded count; refusals are counted, at most 256, at most 192 unreserved; all within bounds |
| JournalAccounting.Numbered | grafana_jsm_sandbox/journal_reducer.py:3119-3121 | commits are numbered by how many there are |
| JournalAccounting.GenesisExactly | grafana_jsm_sandbox/journal_reducer.py:2331-2354 | an accepted first commit is within the total it sets exactly when its body and its 384 bytes are |
| JournalAccounting.GenesisMayExceed | grafana_jsm_sandbox/journal_reducer.py:2331-2354 | the first commit is not compared with the total it sets: a record is exhibited that exceeds it |
| JournalAccounting.NothingAfterExcess | grafana_jsm_sandbox/journal_reducer.py:2357-2447 | a journal over its total takes no further commit of any kind |
| JournalReplay.GroupsFlatten | grafana_jsm_sandbox/journal_reducer.py:3303-3327 | grouping undoes flattening, for any framed commits |
| JournalReplay.GroupsSound | grafana_jsm_sandbox/journal_reducer.py:3303-3327 | grouping returns only framed commits whose flattening is the stream |
| JournalReplay.GroupCommits | grafana_jsm_sandbox/journal_reducer.py:3303-3327 | the one-pass loop computes that grouping, with the same first error |
| JournalReplay.LiveIsReplay | grafana_jsm_sandbox/journal_reducer.py:3330-3334 | the projection after any run of accepted commits is the replay of their flattened records |
| JournalReplay.ReplayIsLive | grafana_jsm_sandbox/journal_reducer.py:3330-3334 | whatever replays groups into commits that were accepted one by one, with the same projection |
| JournalProjector.CheckFraming | grafana_jsm_sandbox/journal_reducer.py:3110-3117 | the loop over positions accepts exactly framed commits |
| JournalProjector.CheckChain | grafana_jsm_sandbox/journal_reducer.py:3123-3131 | the loop carrying expected number and digest accepts exactly a continued chain |
| JournalProjector.Projector.VerifyCommit | grafana_jsm_sandbox/journal_reducer.py:3104-3205 | every check of a commit in order, changing nothing |
| JournalProjector.Projector.WritePending | grafana_jsm_sandbox/journal_reducer.py:3231-3232 | writing the pending updates one by one gives the merged map |
| JournalProjector.Projector.ApplyDelta | grafana_jsm_sandbox/journal_reducer.py:3208-3297 | the field-by-field update leaves exactly the projection the delta stands for, the recovered head read before the head moves |
| JournalProjector.Projector.Commit | grafana_jsm_sandbox/journal_reducer.py:3330-3334 | a commit is applied exactly when it verifies; otherwise nothing changes and the error is the verifier's |
| JournalProjector.Replay | grafana_jsm_sandbox/journal_reducer.py:3303-3334 | replaying a record stream yields the projection of its commits, or the first fault in stream order |
| JournalPlans.AdmissionPlanPasses | grafana_jsm_sandbox/journal_reducer.py:771-838 | a planned admission passes verification exactly when its boot and clock are current |
| JournalPlans.CapacityHoldPasses | grafana_jsm_sandbox/journal_reducer.py:841-867 | a refused admission's capacity hold is planned exactly when that hold is not in force and the total has room, passes exactly when boot and clock are current, and then is in force |
| JournalPlans.IngressRefusalPasses | grafana_jsm_sandbox/journal_reducer.py:880-913 | an ingress refusal is recorded exactly when verification would take the record it plans |
| JournalPlans.RestartPlanPasses | grafana_jsm_sandbox/journal_reducer.py:738-768 | a planned restart passes exactly when its boot was never seen |
| JournalPlans.ResumePlanPasses | grafana_jsm_sandbox/journal_reducer.py:916-946 | planning a resume does not check that it comes first: the plan passes exactly when nothing was committed since the restart and boot and clock are current |
| JournalPlans.ResumePlannedTooLate | grafana_jsm_sandbox/journal_reducer.py:916-946 | a reachable journal, restarted and then refusing one ingress, on which a resume is planned in the current boot and the plan is refused |
| JournalPlans.EveryAdmissionSettles | grafana_jsm_sandbox/journal_reducer.py:771-867 | on every opened journal an admission is planned and passes, or is refused and its hold passes, when boot and clock are current |

## Left out

- TLS, sockets, file permissions, locks as such, SQLite settings and the file headers of the store: foreign calls without decisions of their own.
- HMAC, SHA-256 and random tokens as algorithms.
- Field-by-field grammar of journal records and accounting events, and the shape checks of ids and digests: records are well typed here.
- The calendar behind a budget week: weeks come from an arbitrary function of the instant.
- Classification of executions: the assessment record is modelled, its derived verdict is not.
- Strings with lone surrogates and dictionaries with keys that are not strings: values are well formed.
- The text width that a receipt reserves: a charge is a number fixed at reservation.
- Bytes of the archive index: whether it fits is an input. Event bodies, digests and ids inside a segment are written by an arbitrary codec, and the segment's own digest is not modelled.
- Abort callbacks: an abort is attached and fired, what it does is `UpstreamChannel`.
- Which history ceiling of the policy is reported first when several are breached.
- Loops and locals of the control session and of the upstream channel: both are step machines over interleaved threads, because their point is concurrency; update in place is not modelled there.
- Legacy forwarder, command line, notification validation, cards, status, audit candidates, route catalogue and response schemas: they would only add easy members.
- LeaseRegistry.Registry.Register: whether the metadata of the lease history still fits is an input, because text widths are not modelled.
- CanonicalJson.CanonEmits: does not say which error a refused value gets, because the order in which faults are met is `Canon`'s own.
- AccountingArchive.UnframeAll: frames are values there; their bytes, lengths and positions are in `ArchiveBytes`.
- AccountingArchive.StretchEncodes: whether the segment fits is an input there; `ArchiveCodec.StretchBytes` puts the size of its bytes for it.
- AccountingArchive.StretchDecodes: the segment is a value there; `ArchiveBytes.SegmentReads` reads it from its bytes.
- JournalReplay.GroupCommits: groups are returned at once; the lazy order of the generator is in `JournalProjector.Replay`.
