# The Coraza connector for nginx, modelled and proved

This project models the stateful core of an nginx module that puts the Coraza web
application firewall in front of a server: how request and response bodies reach the engine,
how a response is held back until it has been inspected, how rules are read, inherited and
compiled, and how transactions and firewalls are created and freed. The engine, nginx,
allocation and file reads answer as they please; what is proved holds for all their answers.

`dafny verify dfyconfig.toml` checks the whole project.

| file | what it holds |
|---|---|
| `SecLang.dfy` | the line-based reading of rule text: trimmed lines, comments, backslash gluing, backtick lists |
| `Scanner.dfy` | the byte-at-a-time scan of rule text, as functions and as the mutable scanner that computes them |
| `ScannerRefinement.dfy` | the scan agrees with the line-based reading |
| `WafConfig.dfy` | rule inheritance down the configuration tree |
| `WafSharing.dfy` | building, sharing, selecting and freeing WAFs in a worker |
| `Interventions.dfy` | the rulings the engine holds on a transaction, and what a poll makes of them |
| `Buffers.dfy` | nginx buffers over memory and files that others may overwrite; the pending list |
| `ResponseTraces.dfy` | what a response has been through, and the law every call of the body filter keeps |
| `ResponseFilter.dfy` | the header filter's decision and the body filter, over the heap |
| `ResponseRun.dfy` | whole responses, with the buffers recycled between the calls |
| `HeaderCodec.dfy` | the packed form of a batch of headers |
| `HeaderList.dfy`, `HeaderEngine.dfy` | nginx's header list; where headers cross to the engine |
| `RequestHeaders.dfy`, `ResponseHeaders.dfy` | header submission: the batch, the fallback, the dedicated fields |
| `RequestBody.dfy` | the re-entrant request-body handler |
| `TxLifecycle.dfy` | the life of a transaction from its creation to its release |

## The main results

- **The scan refines the reading.** On every text without a NUL byte the automaton refuses
  exactly what the line-based reading refuses, apart from records in which a blank follows a
  line-final backslash while the first word is open; it reports the line on which the
  earliest refused record starts, however the file is cut into reads
  (`ScanRefinesLines`, `ScanMissesOnlyCut`, `ScanAgrees`, `ReportedLine`, `CheckRulesFile`).
  That the exception is real is `BlankAfterBackslashIsMissed`.
- **Sharing preserves meaning and ownership.** After merging and a successful build every
  location runs on a WAF compiled from exactly the entries on its path, and the build succeeds
  unless the engine fails one (`Configure`); whatever
  build fails, each handle built is freed exactly once (`WorkerLife`); there is one WAF per
  distinct rule sequence (`DedupIsMinimal`).
- **Responses.** For any sequence of chains, any recycling of the buffers between calls and
  any answers of the engine, the allocator, the files and the filters downstream
  (`Respond`, through `Law`, `Call` and `Outcome`): nothing is lost, repeated or reordered;
  nothing is forwarded uninspected; phase 4 runs at each final buffer on all the body up to
  and including it; headers go once and before any byte; a response replaced before its
  headers went out never sends a byte of its body; headers wait exactly as long as they were to
  wait, nothing was refused, no last buffer has come and the body is within 1 MiB; and outside
  an error page a response is refused exactly when there was a verdict, an error or a failure,
  or a buffer that cannot be inspected, and the chain that met it is withheld; what is let
  through leaves the engine holding no ruling that blocks, which it may take up at any append
  or phase; a refusal is answered with the status the poll gave, or with 500, as a redirect
  exactly if the headers are still held, the status is one and there is a Location (`Said`); and
  a response still held or answered by a redirect leaves every chain drained. What
  the producers write before each call is an input, and the bytes conserved are those the
  chains carry under it.
- **Request bodies.** Over any interleaving of handler entries and read callbacks, a body
  that was submitted and not refused was inspected exactly once, whole; which body that is
  follows from the events alone (`Follow`), and it is one nginx reported (`TakenWasReported`);
  and outside an error page a request is refused exactly when something adverse happened, so
  that one let through leaves the engine holding no ruling that blocks; every answer of the
  handler is given, the refusal among them (`Serve`).
- **Headers.** Packing is invertible and succeeds exactly on what the format can carry
  (`RoundTrip`, `Injective`, `PackHeaders`); the batch and its fallback give the engine the
  same headers (`RequestHeaders.SubmitHeaders`, `ResponseHeaders.SubmitHeaders`); each live
  response header is counted once exactly when no entry sits in two dedicated fields
  (`CountedOnce`), and then arrives saying what it should (`EntryArrives`).
- **Transactions.** Over any run the transactions the steps give rise to, and no others, are
  created and freed exactly once; those whose cleanup was registered, and no others, are logged
  exactly once, before that (`LiveThrough`, `SettledCounts`).

## Assumptions

- `coraza_new_waf` and `coraza_new_transaction` return 0 or a handle not given out before; a
  refused batch of headers adds nothing. An intervention has a positive status; one that
  blocks is kept until it is fetched, and a phase reports it by its result.
- `r->error_page` does not change during a request, and `ngx_http_filter_finalize_request`
  ends the original response: what follows is nginx's own.
- Memory and temporary files belong to their producers and may be overwritten as soon as a
  call returns; other files are left alone. Filters downstream do not write to the buffers
  they are given.
- A file range that is not inverted lies within its file. With inspection on, the file
  reader itself refuses inverted ranges; with it off, there are none.
- Every part of a header list after the first holds something.
- Lengths fit a `size_t`.

## Where code and comments differ

- `src/ngx_http_coraza_header_filter.c` says that headers are not held back when body
  inspection is not needed; its condition does not look at that, so they are. The model
  follows the condition.
- The per-header response path passes lengths to `int` parameters without the check that the
  request path makes, so a header longer than an `int` can say reaches the engine cut short
  or not at all (`OverlongIsCut`, `NarrowedExact`).
- The header filter acts on a positive poll only. A poll fails when the phase was interrupted
  and the response headers have already been sent (`r->header_sent`); the header filter then
  goes on as if there had been no verdict, while the other polls fail closed. `PollMeaning` says
  that this is exactly when, `DecideOnHeaders` that nothing else is passed over, and `Underway`
  carries it through a run as `overlooked`.
- Request headers that the engine refuses one by one are not noticed:
  `RequestHeaders.SubmitHeaders` says exactly which headers then arrive, and that all do if and
  only if none was refused.

## Reading the proofs

Many predicates are written `var p := ...; p`. The conjunction is the same; written so, the
verifier proves it as one assertion instead of one per conjunct, which keeps each proof small.

## Model

| member | source | states |
|---|---|---|
| `Scanner.RulesScan.ScanWord` | src/ngx_http_coraza_module.c:311-330 | the answer is whether the collected word is a refused directive, ignoring case |
| `Scanner.RulesScan.EndOfLine` | src/ngx_http_coraza_module.c:334-377 | the new scanner state and the verdict are those of the end-of-line transition |
| `Scanner.RulesScan.ScanByte` | src/ngx_http_coraza_module.c:389-427 | one byte takes the scanner through exactly one transition of the automaton, within its 32-byte word |
| `Scanner.RulesScan.Chunk` | src/ngx_http_coraza_module.c:382-429 | a chunk of any length has the effect of feeding its bytes, stopping at the first refused record |
| `Scanner.RulesScan.Done` | src/ngx_http_coraza_module.c:434-444 | the end of input closes the last line and judges a record left in an open list |
| `Scanner.FeedConcat` | src/ngx_http_coraza_module.c:382-429 | feeding two pieces is feeding their concatenation |
| `Scanner.ChunkIndependence` | src/ngx_http_coraza_module.c:382-429 | verdict and state do not depend on how a text is cut into reads |
| `Scanner.CheckRulesFile` | src/ngx_http_coraza_module.c:481-510 | however the reads fall, if none fails the verdict and line are those of one pass over the whole file, and if one fails nothing is refused; a refusal names the line of the whole file's |
| `Scanner.CaseBlind` | src/ngx_http_coraza_module.c:311-330 | changing the case of letters anywhere in a text changes neither verdict nor line |
| `Scanner.RefusedExactly` | src/ngx_http_coraza_module.c:276-278 | a word is refused exactly if it spells SecRemoteRules, in any case |
| `ScannerRefinement.FeedLine` | src/ngx_http_coraza_module.c:389-427 | the effect of a whole physical line in closed form |
| `ScannerRefinement.LineInStep` | src/ngx_http_coraza_module.c:334-427 | after each physical line the automaton's state corresponds to the record being assembled, and the line's verdict to the record it completes |
| `ScannerRefinement.RestInStep` | src/ngx_http_coraza_module.c:334-444 | from any point between lines, the automaton's report on the rest is the earliest caught record of the rest |
| `ScannerRefinement.ScanRefinesLines` | src/ngx_http_coraza_module.c:291-444 | on every NUL-free text the automaton reports the earliest record that the line-based reading refuses and that is not cut, and its line |
| `ScannerRefinement.ReportMeaning` | src/ngx_http_coraza_module.c:500-507 | a report is the first caught record: none before it is caught |
| `ScannerRefinement.ScanMissesOnlyCut` | src/ngx_http_coraza_module.c:399-406 | refused if and only if some judged record is refused by the reading and is not cut by a blank after a line-final backslash |
| `ScannerRefinement.ScanAgrees` | src/ngx_http_coraza_module.c:291-444 | with no blank after a line-final backslash, refused if and only if some judged record has a refused first word |
| `ScannerRefinement.ReportedLine` | src/ngx_http_coraza_module.c:409-415 | the reported line is where the earliest refused record starts |
| `ScannerRefinement.BlankAfterBackslashIsMissed` | src/ngx_http_coraza_module.c:399-406 | for every refused directive and any blanks after the backslash, the reading refuses the text and the scan does not |
| `WafConfig.MergeConf` | src/ngx_http_coraza_module.c:931-970 | the parent's entries come before the child's own; a child without rules shares its parent's array |
| `WafConfig.MergeTree` | src/ngx_http_coraza_module.c:905-981 | merging a tree top-down gives every node the concatenation of the entries on its path |
| `WafConfig.ParentsFirst` | src/ngx_http_coraza_module.c:927-959 | a location's rules begin with its parent's and with the root's, and end with its own |
| `WafSharing.RulesEqual` | src/ngx_http_coraza_module.c:1004-1032 | equal exactly when they are the same array or hold the same entries in order |
| `WafSharing.BuildWaf` | src/ngx_http_coraza_module.c:1039-1106 | a non-zero handle is new and compiled from exactly the given entries in order; 0 means that nothing was built, because there are none or a step failed; no configuration stays open |
| `WafSharing.AddEntries` | src/ngx_http_coraza_module.c:1060-1091 | every entry is added in order, inline text as text and files as files, or it stops at the first that fails |
| `WafSharing.CompileEntries` | src/ngx_http_coraza_module.c:1053-1105 | on every path the configuration is freed once |
| `WafSharing.FindDonor` | src/ngx_http_coraza_module.c:1195-1207 | the earlier owner with equal rules, or proof that there is none |
| `WafSharing.Serve` | src/ngx_http_coraza_module.c:1166-1222 | one turn of the loop keeps the sharing invariant, also when the build fails |
| `WafSharing.SharedWithoutBuild` | src/ngx_http_coraza_module.c:1171-1210 | skipping, using the main WAF or borrowing keeps the sharing invariant |
| `WafSharing.SharedWithBuild` | src/ngx_http_coraza_module.c:1212-1218 | building for rules that no earlier owner has keeps the sharing invariant |
| `WafSharing.InitProcess` | src/ngx_http_coraza_module.c:1113-1229 | after a build that stopped anywhere, the locations before that point are served by the right WAF, each with one owner, and nothing has been freed; it stops exactly when the engine fails a build |
| `WafSharing.ExitProcess` | src/ngx_http_coraza_module.c:1236-1281 | frees what the owners hold and then the main WAF, and leaves no handle and no owner flag |
| `WafSharing.FreedExactly` | src/ngx_http_coraza_module.c:1261-1278 | whatever turn the build stopped at, the handles freed are exactly those built, each once |
| `WafSharing.WorkerLife` | src/ngx_http_coraza_module.c:1113-1281 | init then exit frees every handle built exactly once and nothing else, whichever build fails |
| `WafSharing.SelectedMeaning` | src/ngx_http_coraza_module.c:197-198 | the WAF chosen for a location was compiled from its rule sequence, or is the main one if it has none |
| `WafSharing.Configure` | src/ngx_http_coraza_module.c:905-1229 | merged and built, every location's WAF was compiled from exactly the entries declared from the root to it; it fails only when the engine fails a build |
| `WafSharing.DedupIsMinimal` | src/ngx_http_coraza_module.c:1167-1222 | the WAFs built are one for the main configuration and one per distinct non-empty sequence not shared with it by pointer |
| `Buffers.Pending.Append` | src/ngx_http_coraza_body_filter.c:654-656 | appending through the tail pointer appends to the sequence: the list stays acyclic, its tail at its end, and what it carries grows by what the buffer carried |
| `ResponseFilter.ResponseCtx.ReadBodyData` | src/ngx_http_coraza_body_filter.c:67-124 | success gives exactly the buffer's bytes, from memory or by any pattern of short reads |
| `ResponseFilter.ResponseCtx.AppendFile` | src/ngx_http_coraza_body_filter.c:132-244 | success means that the whole range was appended; failure leaves a proper part and sets the flag; nothing longer than 64 KiB is given to the engine at once |
| `Interventions.FetchedMeaning` | src/ngx_http_coraza_module.c:42-137 | a poll is silent on no intervention and on status 200; any other status is handed on as it is, or is an error once the headers have been sent |
| `Interventions.PollMeaning` | src/ngx_http_coraza_common.h:218-248 | a poll after a phase gives a status exactly when the phase failed, or was interrupted with a status other than 200 before the headers were sent, and an error exactly when it was so interrupted afterwards |
| `ResponseFilter.ResponseCtx.Inspect` | src/ngx_http_coraza_body_filter.c:412-482 | unless it fails the engine has been given all of the buffer, and otherwise a part of it; it goes on only if the engine then holds no ruling that blocks, and otherwise stops with the status the poll gave, or 500 |
| `ResponseFilter.ResponseCtx.Phase4` | src/ngx_http_coraza_body_filter.c:498-535 | the rules run once on what has been appended; it goes on only if they did not fail and brought no ruling that blocks, and otherwise stops with the status the poll gave, or 500 |
| `ResponseFilter.ResponseCtx.Duplicate` | src/ngx_http_coraza_body_filter.c:561-642 | the duplicate carries the same bytes in storage its producer cannot overwrite: fresh memory, or a stable file |
| `ResponseFilter.ResponseCtx.Hold` | src/ngx_http_coraza_body_filter.c:552-657 | the pending list grows by the buffer's bytes and the delay is charged with them, the final buffer excepted; the original is marked consumed |
| `ResponseFilter.ResponseCtx.WalkChain` | src/ngx_http_coraza_body_filter.c:379-658 | the loop over a chain of any length shows every buffer in order and holds it, or stops inside one |
| `ResponseFilter.ResponseCtx.SendPending` | src/ngx_http_coraza_body_filter.c:692-694 | once the headers have gone, the list handed downstream is the pending list, whole, and nothing stays pending |
| `ResponseFilter.ResponseCtx.Flush` | src/ngx_http_coraza_body_filter.c:660-740 | headers first, when none have gone and no body has, then everything held, even if the headers are not yet written; only a failure of the headers stops the body |
| `ResponseFilter.ResponseCtx.FlushOrKeep` | src/ngx_http_coraza_body_filter.c:660-743 | held headers are flushed exactly at the end of the body or past the cap, and otherwise stay held with everything |
| `ResponseFilter.ResponseCtx.Consume` | src/ngx_http_coraza_body_filter.c:281-290 | every buffer of the chain is marked consumed |
| `ResponseFilter.ResponseCtx.Finalize` | src/ngx_http_coraza_body_filter.c:292-335 | what is held is dropped and the charge cleared; the refusal is a redirect exactly if the headers were still held, the status is one and there is a Location; otherwise nginx answers with the status |
| `ResponseFilter.ResponseCtx.AfterIntervention` | src/ngx_http_coraza_body_filter.c:364-376 | after an intervention nothing of the origin is forwarded; behind a header-only response every chain is consumed |
| `ResponseFilter.ResponseCtx.DecideOnHeaders` | src/ngx_http_coraza_header_filter.c:665-730 | outside an error page the response is refused exactly when the phase failed or was interrupted in time, as a redirect exactly for a redirect status with a Location; an interruption that comes too late is passed over; headers are held back exactly under the listed conditions and otherwise forwarded |
| `ResponseFilter.ResponseCtx.HeaderFilter` | src/ngx_http_coraza_header_filter.c:447-731 | the first pass establishes the law, refuses exactly when the engine denies and with its status, and holds headers back exactly when the delay is on, the request is a main one and no HEAD, and the response has a body to come, is no 101 and no event stream; later passes only forward |
| `ResponseFilter.ResponseCtx.BodyFilter` | src/ngx_http_coraza_body_filter.c:348-747 | any call keeps the law and takes the filter from one state to the next as `Turned` says: headers stay held exactly below the cap and before the end; a verdict or failure is acted on, its chain withheld, and answered with the status the poll gave or 500; a chain let through leaves no ruling that blocks; what is held equals what is charged and is within the cap; a flush leaves nothing pending; the chain is left consumed where it was taken over; nothing longer than 64 KiB or one buffer's memory is given to the engine at once |
| `ResponseFilter.HeldIsDrained` | src/ngx_http_coraza_body_filter.c:561-651 | while headers are held, every buffer of a chain is read to its end, so that nginx may reuse it |
| `ResponseTraces.AfterAll` | src/ngx_http_coraza_body_filter.c:379-658 | the loop in closed form: everything shown, everything held, charged at most the chain's size |
| `ResponseTraces.BoundedDelay` | src/ngx_http_coraza_body_filter.c:603-637 | inside a call the delay exceeds what it held by at most the chain's size |
| `ResponseTraces.CutWalk` | src/ngx_http_coraza_body_filter.c:412-535 | a walk stopped anywhere has shown an initial part of the chain and run an initial part of its phase 4s |
| `ResponseTraces.FinalsCount` | src/ngx_http_coraza_body_filter.c:498-535 | phase 4 runs once per buffer marked last, trailing buffers notwithstanding |
| `ResponseTraces.LawStreamed` | src/ngx_http_coraza_body_filter.c:746 | passing a chain on keeps the law |
| `ResponseTraces.LawKept` | src/ngx_http_coraza_body_filter.c:742-743 | going on holding keeps the law |
| `ResponseTraces.LawFlushed` | src/ngx_http_coraza_body_filter.c:660-740 | a flush keeps the law, whether or not the headers go out |
| `ResponseTraces.LawReplaced` | src/ngx_http_coraza_body_filter.c:292-335 | replacing the response keeps the law: nothing of it has gone or will go |
| `ResponseTraces.LedgerNext` | src/ngx_http_coraza_body_filter.c:348-747 | a call extends the record of all buffers handed over by its chain |
| `ResponseTraces.HeldNext` | src/ngx_http_coraza_body_filter.c:660-743 | over a run headers are still held exactly if they were to wait, nothing was refused, no last buffer has come and the body is within the cap |
| `ResponseTraces.AnsweredNext` | src/ngx_http_coraza_body_filter.c:292-335 | over a run the status of a refusal and whether it was a redirect stay as they were decided |
| `ResponseTraces.OutcomeOf` | src/ngx_http_coraza_body_filter.c:379-747 | refused exactly on a verdict or failure, conservation, inspection before forwarding, header order, phase 4 at each final buffer and clean replacement, all in terms of the bytes handed over |
| `ResponseRun.Next` | src/ngx_http_coraza_body_filter.c:348-747 | one call of a run keeps the law, the record, the length of the delay and the answer given to a refusal, and leaves the chain drained while headers are held or behind a redirect |
| `ResponseRun.Begin` | src/ngx_http_coraza_header_filter.c:416-731 | the header pass starts a run, refused exactly when the engine denies |
| `ResponseRun.RunChains` | src/ngx_http_coraza_body_filter.c:348-747 | any sequence of calls with recycling before each keeps the law and the record of what the chains carried; held or behind a redirect, every chain of the run is left drained |
| `ResponseRun.Respond` | src/ngx_http_coraza_body_filter.c:348-747 | any whole response, with every producer's memory and temporary file overwritten with given contents before each call, has the outcome above for the bytes the chains carry under those contents; let through, it leaves no ruling that blocks; held or answered by a redirect, it leaves every chain drained |
| `ResponseRun.RunSays` | src/ngx_http_coraza_body_filter.c:292-743 | in plain terms: one let through leaves no ruling but 200; headers are still held exactly if they were to wait, nothing was refused, no last buffer has come and the body is within 1 MiB; a refusal has the status the poll gave, or 500, and is a redirect exactly before the headers went out, for 301, 302, 303, 307 and 308 with a Location |
| `ResponseRun.RefusedAtHeaders` | src/ngx_http_coraza_header_filter.c:669-676 | a response refused at its headers never sends a byte of its body |
| `HeaderCodec.Measure` | src/ngx_http_coraza_utils.c:60-80 | accepts exactly the batches the format can carry and gives their packed length; no guard wraps around |
| `HeaderCodec.PutPair` | src/ngx_http_coraza_utils.c:98-112 | one header is written in its packed form behind what was there |
| `HeaderCodec.Fill` | src/ngx_http_coraza_utils.c:93-113 | the buffer is filled exactly with the packed form |
| `HeaderCodec.PackHeaders` | src/ngx_http_coraza_utils.c:51-118 | succeeds exactly when every name, every value and the total fit, unless the pool fails an allocation, and gives the packed form and its length |
| `HeaderCodec.RoundTrip` | fuzz/fuzz_pack_headers.c:120-148 | reading back a packed batch gives the same headers in the same order |
| `HeaderCodec.Injective` | src/ngx_http_coraza_utils.c:36-50 | batches packed alike are equal, even if their counts were not known to be |
| `HeaderCodec.Spelled` | src/ngx_http_coraza_utils.c:36-40 | lengths before strings, name before value, high octets first |
| `HeaderCodec.DecodeInverse` | fuzz/fuzz_pack_headers.c:120-148 | the reader accepts nothing but the packed form of what it returns |
| `HeaderEngine.AddPacked` | src/ngx_http_coraza_rewrite.c:238-259 | all of a batch arrives, exactly if it can be packed, memory suffices and the engine takes it; otherwise nothing does |
| `HeaderEngine.KeptAll` | src/ngx_http_coraza_rewrite.c:303-307 | of headers offered singly all have arrived exactly when none was refused |
| `HeaderEngine.NarrowedExact` | src/ngx_http_coraza_header_filter.c:116-125 | unchecked narrowing leaves headers alone exactly when all lengths fit an int |
| `HeaderEngine.OverlongIsCut` | src/ngx_http_coraza_header_filter.c:116-125 | a value of 4 GiB and five bytes arrives as its first five |
| `HeaderList.Seek` | src/ngx_http_coraza_rewrite.c:195-203 | stepping over part borders skips and repeats nothing, and stops only at the end of the list |
| `RequestHeaders.CountLive` | src/ngx_http_coraza_rewrite.c:195-207 | counts exactly the live headers |
| `RequestHeaders.LiveExactly` | src/ngx_http_coraza_rewrite.c:275-279 | what is to be submitted is every live header and nothing else |
| `RequestHeaders.CollectLive` | src/ngx_http_coraza_rewrite.c:219-236 | fills the space counted for, no more and no less, with the live headers in order |
| `RequestHeaders.AddEach` | src/ngx_http_coraza_rewrite.c:264-308 | offers the live headers in order, up to the first whose length does not fit an int; the engine then holds exactly those it did not refuse |
| `RequestHeaders.SubmitHeaders` | src/ngx_http_coraza_rewrite.c:177-308 | the engine ends up with exactly the live headers, in order, once each, less those it refused singly, so with all of them if and only if it refused none; the request is refused exactly when some length does not fit an int |
| `ResponseHeaders.HeaderPass.Add` | src/ngx_http_coraza_header_filter.c:67-128 | a header is collected, or sent at once with its lengths narrowed |
| `ResponseHeaders.HeaderPass.Resolve` | src/ngx_http_coraza_header_filter.c:495-504 | the first pass submits Server, Date, the entity headers, Last-Modified if it has a time, and the connection headers, in that order |
| `ResponseHeaders.HeaderPass.AddList` | src/ngx_http_coraza_header_filter.c:506-562 | the second pass submits the live entries in list order, but for those the first pass took |
| `ResponseHeaders.HeaderPass.FlushCollected` | src/ngx_http_coraza_header_filter.c:570-613 | the batch and the replay deliver the same sequence |
| `ResponseHeaders.TimesResolved` | src/ngx_http_coraza_header_filter.c:131-304 | the first pass represents an entry once for each dedicated field it is in |
| `ResponseHeaders.TimesListed` | src/ngx_http_coraza_header_filter.c:519-562 | the second pass represents exactly the live entries outside those fields, once |
| `ResponseHeaders.CountedOnce` | src/ngx_http_coraza_header_filter.c:525-552 | every live entry is submitted exactly once if and only if none is in two dedicated fields |
| `ResponseHeaders.EntryArrives` | src/ngx_http_coraza_header_filter.c:495-562 | a live entry in at most one field is submitted exactly once, with its value under the field's name, the text of its time for Last-Modified, and otherwise as it is |
| `ResponseHeaders.SubmittedAsIs` | src/ngx_http_coraza_header_filter.c:131-304 | whatever is submitted for an entry says of it what it should |
| `ResponseHeaders.EmptyFields` | src/ngx_http_coraza_header_filter.c:144-178 | for an empty Server or Date field the server's own name or the current time is submitted |
| `ResponseHeaders.ListedAsIs` | src/ngx_http_coraza_header_filter.c:557-561 | list entries are submitted under their own name and value |
| `ResponseHeaders.SubmitHeaders` | src/ngx_http_coraza_header_filter.c:470-613 | collected or not, taken as a batch or replayed, the engine receives the same sequence; it gives up whenever the engine refuses a header, and otherwise only if an allocation failed |
| `RequestBody.RequestCtx.Phase2` | src/ngx_http_coraza_pre_access.c:55-91 | the rules run once on what was appended; outside an error page the request goes on only if they did not fail and brought no ruling that blocks, and otherwise is refused with the status the poll gave, or 500 |
| `RequestBody.RequestCtx.Check` | src/ngx_http_coraza_pre_access.c:445-458 | a poll goes on exactly with no ruling that blocks; any other is a refusal with its status, or with 500 if it came too late, unless an error page is being made |
| `RequestBody.RequestCtx.AppendFile` | src/ngx_http_coraza_pre_access.c:100-222 | success means that the whole file was appended; anything else leaves a proper part, with the flag set unless an error page is being made; nothing longer than 64 KiB is given to the engine at once |
| `RequestBody.RequestCtx.AppendBuffers` | src/ngx_http_coraza_pre_access.c:379-436 | success means that all was appended up to the buffer marked last; otherwise an initial part, with the flag set unless an error page is being made |
| `RequestBody.RequestCtx.Submit` | src/ngx_http_coraza_pre_access.c:323-460 | the body is taken once, and either inspected whole, leaving no ruling that blocks, or refused with the status the poll gave, or 500 |
| `RequestBody.RequestCtx.Handler` | src/ngx_http_coraza_pre_access.c:225-465 | every answer: declined behind an earlier refusal, the status of a refusal made now, waiting exactly while the body is being read, the error of a failed read, and otherwise declined; the flags and the body submitted move exactly as `Entered` says; a request let through had its body inspected whole or had none, and the engine holds no ruling but 200; a later entry changes nothing |
| `RequestBody.RequestCtx.RequestRead` | src/ngx_http_coraza_pre_access.c:20-37 | the callback resumes the handler only if it waited, submits the body just reported, gives the handler's answer, and never submits again |
| `RequestBody.Serve` | src/ngx_http_coraza_pre_access.c:20-465 | over any interleaving the body submitted is the one `Follow` names and every event has the answer `AnswerAt` names, the refusal falling on the event that submits; submitted and not refused means phase 2 ran exactly once, on the whole of it; not refused outside an error page means that the engine holds no ruling but 200; no byte is appended twice; outside an error page it refuses exactly when something adverse happened |
| `RequestBody.TakenWasReported` | src/ngx_http_coraza_pre_access.c:283-331 | the body submitted is one that nginx reported during the run |
| `RequestBody.TakenStays` | src/ngx_http_coraza_pre_access.c:315-341 | once a body is submitted, no later event changes which |
| `RequestBody.WaitsForTheBody` | src/ngx_http_coraza_pre_access.c:253-313 | while nginx is still reading, however often the handler is entered, it submits nothing and answers that it waits; what nginx then reports is submitted at once |
| `TxLifecycle.Request.Adopt` | src/ngx_http_coraza_module.c:212-249 | a new handle is either registered for cleanup or, if that fails, freed at once |
| `TxLifecycle.Request.CreateCtx` | src/ngx_http_coraza_module.c:176-266 | which transactions there are and which are registered follows from what the environment answered, and there is a context exactly when nothing failed |
| `TxLifecycle.Request.LogHandler` | src/ngx_http_coraza_log.c:15-47 | an enabled context that was not logged is logged once and claimed; otherwise nothing is logged |
| `TxLifecycle.Request.Rewrite` | src/ngx_http_coraza_rewrite.c:30-58 | only a first, enabled entry makes a context; its transaction is logged and claimed at once exactly if the request headers are denied |
| `TxLifecycle.Request.Cleanup` | src/ngx_http_coraza_module.c:140-174 | logs what was not logged, then frees |
| `TxLifecycle.Request.DestroyPool` | src/ngx_http_coraza_module.c:236-249 | all registered cleanups run, and no transaction is left |
| `TxLifecycle.GivenBy` | src/ngx_http_coraza_module.c:185-232 | the transactions of a run are exactly those given out where the location is enabled, the request has no context, and WAF, memory and id are there |
| `TxLifecycle.RegisteredBy` | src/ngx_http_coraza_module.c:240-249 | a transaction is registered exactly if that was possible when it was first given out |
| `TxLifecycle.StageCounts` | src/ngx_http_coraza_module.c:146-173 | the stage of a transaction tells how often it was created, registered, logged and freed |
| `TxLifecycle.SettledCounts` | src/ngx_http_coraza_module.c:146-173 | at the end each transaction was created and freed once, and logged once exactly if it was registered |
| `TxLifecycle.LiveThrough` | src/ngx_http_coraza_module.c:140-266 | any run of context creations, redirects, early logging and log phases settles exactly the transactions its steps give rise to: registered ones logged and then freed, the others freed at once |

## Left out

- The incoming chain of the body filter is a sequence of buffer values: marking a buffer
  consumed is returned as a new value, so a buffer object that occurs twice in one chain is
  not captured. The memory and the files behind the buffers, and the pending list, are
  objects.
- Return codes of the response filters, beyond what they mean for the traces.
- RequestHeaders.SubmitHeaders: a header that the engine refuses on the per-header path does not
  refuse the request, because the source ignores that answer.
- ResponseHeaders.SubmitHeaders: lengths that become negative as an `int` are taken to be
  refused by the engine, whose behaviour on them is not part of this model.
- RequestBody.RequestCtx.Handler: with body access off, phase 2 runs at every entry, and with
  no body object at all it does not run; both are as in the source.
- ScannerRefinement.ScanRefinesLines: a NUL byte is excluded, because the scanner uses it to
  mark that a line has not begun.
- WafSharing.BuildWaf: the C copy of each rule string is not modelled.
- Failures of configuration-time allocation, which abort the start.
- The individual header resolvers, the event-stream match and the Location truncation: each is
  one loop or one branch; their results are parameters here.
- Opening the engine library, the connection address and URI mapping, direct I/O, logging to
  nginx's log, and the phase engine itself: glue or environment.
- Rule evaluation and body limits inside the engine.
