# Stateful parts of Fuchsia's tools and services, in Dafny

The project models those parts of the repository in which something has to hold over a whole run,
and proves it for every run, every input or every history.

- **HTTP service** (`SlotAllocator`, `LoaderProtocol`, `LoaderRuns`, `LoaderFaults`, `HttpService`). Network slots are
  handed out by a counting allocator with a first-in first-out queue. Loader containers reach it
  through tasks posted between the main thread and one IO thread each; weak references decide
  whether a container still exists. The protocol is a step relation over the task queues, and a
  class with the service's fields is proved to make exactly those steps, nested returns included.
  Each grant is numbered, so that "returned exactly once" can be said of each slot.
- **URL loader and bodies** (`UrlLoader`, `UrlAnswers`, `BodyTransfer`). The asynchronous callback chain of
  one HTTP client and the redirect loop around it, what they answer told from the completions alone, and
  the chunked copies of bodies under partial writes.
- **ktrace provider** (`KtraceReader`, `KtraceSyscalls`, `KtraceChannels`). The 64K buffered reader
  against plainly cutting the byte stream into records; syscall durations and channel flows as
  functions of the record history.
- **cpuperf provider** (`CpuperfImporter`). Intervals and tallies per CPU and event.
- **make-fuchsia-vol** (`GptLayout`). The partition layout.
- **Smaller tools** (`GcsReader`, `GnLabels`, `GnComplete`, `FidlPaths`, `FormatSize`). Random access on
  a forward stream, completion of GN labels, expansion of FIDL paths, size formatting.

The network, devices, sockets, file systems and schedulers are parameters: any sequence of results
that they may give is an input. `dafny verify dfyconfig.toml` checks the whole project.

## Where the code does something else than expected

For each of these there is a concrete input, and a statement for all inputs that says exactly when
it happens.

- Two Starts of one loader in flight overwrite `on_inactive_` and lose a slot for good
  (`LoaderFaults.TwoStartsLoseASlot`). In every run a slot is lost if and only if some step granted
  to a container that still held one (`LoaderFaults.RunLosesIff`). Continued, the run calls an empty
  closure (`LoaderFaults.TwoStartsCrash`); a state is a crash exactly after the return of a slot of
  a container that holds none, and that never happens before a slot is lost
  (`LoaderFaults.RunCrashesIff`). If both Starts are answered, the second answer finds the loader's
  callback gone even before that (`LoaderFaults.TwoStartsAnswerTwice`, exact condition in
  `LoaderFaults.CallbackIff`).
- A status line that is refused after a redirect code was parsed from it makes the loader call its
  callback twice (`UrlLoader.RefusedRedirectCrashes`); that happens exactly if some client gives up
  on a redirect status (`UrlLoader.StartOutcome`, `UrlLoader.ContradictoryIff`).
- Too many redirects are reported even if the twentieth target is neither http nor https
  (`UrlLoader.LastTargetNeedNotBeHttp`, exact condition in `UrlAnswers.StartAnswers`).
- A client that cannot read the status line or the headers, or has no socket for the body, ends without an
  answer (exact condition in `UrlAnswers.SilentIff`); so does its Start (`UrlAnswers.StartAnswers`).
- A trace that ends inside a record can have that record handed out as if it were whole, because the
  second length is read where the tag was before the refill
  (`KtraceReader.CutOffRecordIsHandedOut`); `Misread` in `DeviceReader.ReadNextRecord` is the exact
  condition. By the same contract a record whose length field is zero is never stepped over
  (`KtraceReader.ZeroLengthStays`).
- The flow id of a channel message does not identify the channel (`KtraceChannels.FlowIdsCollide`,
  exact condition in `KtraceChannels.WritesShareId` and `KtraceChannels.ReadSharesId`), and after a
  deletion a message can be read with another id than it was written with
  (`KtraceChannels.DeletionMixesMessages`, exact condition in `KtraceChannels.MessageKeepsId`).
- `optimialBlockAlign` is documented to start at or after the given block, and gives block zero for a
  block that is already aligned. That sends the EFI partition to block zero
  (`GptLayout.AlignedFirstBlock`), or A if the EFI partition takes up whole alignment units
  (`GptLayout.SevenBlocks`). `GptLayout.ProperIff` says for every configuration when the layout is
  proper.
- A GCS reader that fails to reopen its object keeps the stream it has just closed, and answers every
  later forward read from it with a failure (`GcsReader.FailedReopeningStays`). After a call there is
  an open stream exactly as `GcsReader.OpenIff` says, and `GcsReader.ClosedAt` says when a closed one
  fails.
- A directory given to fidlcat that is also found below another one is read twice, and its files are
  added twice (the counts in `FidlPaths.ExpandFidlPaths`).
- A GN label that all others continue is missing from the completions
  (`GnComplete.ShorterLabelMissing`, exact condition in `GnComplete.ExtendsUnlessBuried`); completing
  inside a toolchain raises an error (`GnLabels.CutInsideToolchain`, exact condition in
  `GnLabels.SplitLabel`); `make_label_relative` takes a sibling for a child
  (`GnLabels.SiblingTakenForChild`, exact condition in `GnLabels.RelativeRoundTrip`); an absolute
  label that is only `//` and a toolchain has no `//` segment, which the documentation promises
  (`GnLabels.RootWithToolchain`, exact condition in `GnLabels.SplitShape`).
- `format_size` has no letter for sizes it divides more than six times (`FormatSize.NoLetter`, exact
  condition in `FormatSize.Format`).

## Model

| member | source | states |
|---|---|---|
| SlotAllocator.ApplyKeeps | garnet/bin/http/http_service_impl.cc:178-197 | one request or return keeps free slots plus slots out equal to the maximum, lets requests wait only when nothing is free, and changes grants followed by queue only by appending an arrival |
| SlotAllocator.RunsStayBalanced | garnet/bin/http/http_service_impl.cc:178-197 | every legal run is balanced, and grants made followed by the queue are the arrivals in order |
| SlotAllocator.QueueMovesUp | garnet/bin/http/http_service_impl.cc:187-197 | while fewer returns than waiters happen, whatever arrives, the queue has moved up by exactly that many |
| SlotAllocator.GrantedOnReturn | garnet/bin/http/http_service_impl.cc:178-197 | a request with k ahead of it still waits after k returns and is granted by exactly the (k+1)-th |
| SlotAllocator.SlotsInAll | garnet/bin/http/http_service_impl.cc:26-33 | with no returns the first 336 requests are granted at once, in order, and all later ones wait |
| LoaderProtocol.ReturnSound | garnet/bin/http/http_service_impl.cc:187-197 | a return, with the nested returns of grants to destroyed containers, keeps the ledger (balance, no slot returned twice or before it was granted) and touches nothing but slots and IO queues |
| LoaderProtocol.ReturnGrows | garnet/bin/http/http_service_impl.cc:187-197 | a cascade of returns grants only from the head of the queue: grants followed by queue do not change |
| LoaderProtocol.RequestSound | garnet/bin/http/http_service_impl.cc:178-185 | a request keeps the ledger and changes at most one container's slot and IO queue |
| LoaderProtocol.ReleasedSound | garnet/bin/http/http_service_impl.cc:82-91 | handing back the slot of a live container keeps the ledger at the point of the callback and after it |
| LoaderProtocol.JoinTaken | garnet/bin/http/http_service_impl.cc:98-128 | when the join task runs its container exists, is not joined, and has no other task left |
| LoaderProtocol.JoinLedger | garnet/bin/http/http_service_impl.cc:98-107 | joining gives back a slot still held, erases exactly that container and keeps the ledger |
| LoaderProtocol.StepSound | garnet/bin/http/http_service_impl.cc:51-128 | every step of either thread keeps the invariant, whatever clients do |
| LoaderProtocol.EveryRunSound | garnet/bin/http/http_service_impl.cc:51-197 | in every run: slots balance, requests wait only when none is free, no slot is returned twice, every posted task finds its container |
| LoaderProtocol.ReturnOrderly | garnet/bin/http/http_service_impl.cc:72-93 | a cascade of returns keeps every container in one of its phases and every slot out with its holder |
| LoaderProtocol.StepOrderly | garnet/bin/http/http_service_impl.cc:63-128 | with no earlier Start of the loader in flight, every step keeps the phases and the account of all slots, and none crashes |
| LoaderProtocol.EveryRunOrderly | garnet/bin/http/http_service_impl.cc:63-128 | in every interleaving with at most one Start in flight per loader, each slot granted has been returned exactly once or is held by the container it was granted to, and no empty closure or destroyed container is used |
| LoaderRuns.CascadeIsFlat | garnet/bin/http/http_service_impl.cc:72-76 | a nested cascade of returns is a legal flat sequence of returns of the allocator |
| LoaderRuns.StepRefines | garnet/bin/http/http_service_impl.cc:63-128 | each step of the protocol is a legal sequence of allocator events with the same outcome |
| LoaderRuns.RunsRefine | garnet/bin/http/http_service_impl.cc:63-197 | every run of the protocol is a legal run of the flat allocator, so slots are granted in the order in which requests reach the main thread |
| LoaderRuns.QuietMeansReturned | garnet/bin/http/http_service_impl.cc:63-128 | with all queues drained every slot ever granted has been returned exactly once, all slots are free, nobody waits and every Start of every loader left has been served |
| LoaderRuns.SomeTaskRuns | garnet/bin/http/http_service_impl.cc:63-128 | as long as tasks are left one of them can run: joining never waits for ever |
| LoaderRuns.TaskShrinksLoad | garnet/bin/http/http_service_impl.cc:63-128 | every task run lessens the work left, nested grants included |
| LoaderRuns.TasksDrain | garnet/bin/http/http_service_impl.cc:63-128 | from any state reached with one Start in flight only a bounded number of tasks can run, and when none is left every slot has been returned exactly once and every Start served |
| LoaderRuns.LostStays | garnet/bin/http/http_service_impl.cc:77-91 | no step returns a slot whose closure was overwritten |
| LoaderRuns.ReturnGrants | garnet/bin/http/http_service_impl.cc:187-197 | a return grants to the first waiter that still exists, all earlier ones having returned at once |
| LoaderRuns.LosesIffOverwrites | garnet/bin/http/http_service_impl.cc:77-77 | a step loses a slot if and only if it grants to a container that still holds one |
| LoaderFaults.GrantedInRun | garnet/bin/http/http_service_impl.cc:63-197 | in every run a request with k ahead of it in one state has been granted in a later one if and only if at least k+1 slots were returned between, in nested returns or not, and waits until then |
| LoaderFaults.GrantedByReturn | garnet/bin/http/http_service_impl.cc:63-197 | from any state of any run it is exactly the (k+1)-th later return that grants it |
| LoaderFaults.LostForever | garnet/bin/http/http_service_impl.cc:77-91 | a slot whose closure was overwritten is out in every continuation of the run |
| LoaderFaults.RunLosesIff | garnet/bin/http/http_service_impl.cc:63-128 | in every run some slot is lost if and only if some step granted to a container that still held one or was being destroyed |
| LoaderFaults.CrashesIff | garnet/bin/http/http_service_impl.cc:83-91 | a step crashes if and only if it runs the return of a slot for a container whose closure is empty |
| LoaderFaults.NoOverwriteNoCrash | garnet/bin/http/http_service_impl.cc:63-128 | as long as no closure is overwritten every container has exactly as many returns coming as it holds slots, and nothing crashes |
| LoaderFaults.RunCrashesIff | garnet/bin/http/http_service_impl.cc:63-128 | in every run a state is a crash of the service exactly after a step that calls an empty closure, and then a slot has been lost before; the loader's own callback is the subject of CallbackIff |
| LoaderFaults.CallbackIff | garnet/bin/http/http_url_loader_impl.cc:31-69 | in every run a loader has a callback if and only if some Start was made since which no serve has answered |
| LoaderFaults.UnservedHasCallback | garnet/bin/http/http_url_loader_impl.cc:31-38 | with one Start in flight at a time a Start that is not served yet has its callback |
| LoaderFaults.EveryAnswerHasCallback | garnet/bin/http/http_url_loader_impl.cc:65-69 | with one Start in flight at a time no answer finds the callback gone |
| LoaderFaults.TwoStartsLoseASlot | garnet/bin/http/http_service_impl.cc:63-96 | a run of six steps with two Starts in flight that loses slot 0 |
| LoaderFaults.TwoStartsCrash | garnet/bin/http/http_service_impl.cc:63-96 | its continuation by four steps calls an empty closure |
| LoaderFaults.TwoStartsAnswerTwice | garnet/bin/http/http_url_loader_impl.cc:31-69 | its continuation by two serves that both answer calls the loader's callback a second time |
| HttpService.HttpServiceImpl.constructor | garnet/bin/http/http_service_impl.cc:156-159 | the service starts in the protocol's initial state, which is sound |
| HttpService.HttpServiceImpl.CreateURLLoader | garnet/bin/http/http_service_impl.cc:167-176 | is the protocol's step that creates a loader, and keeps the invariant |
| HttpService.HttpServiceImpl.Grant | garnet/bin/http/http_service_impl.cc:72-93 | delivers the slot, or returns it at once for a destroyed container; the ledger holds at the callback |
| HttpService.HttpServiceImpl.OnSlotReturned | garnet/bin/http/http_service_impl.cc:187-197 | is the protocol's return, re-entered with the queue length as measure |
| HttpService.HttpServiceImpl.RequestNetworkSlot | garnet/bin/http/http_service_impl.cc:178-185 | is the protocol's request and keeps the ledger |
| HttpService.HttpServiceImpl.TakeBackSlot | garnet/bin/http/http_service_impl.cc:83-91 | runs the posted return: the closure is moved out before it is called |
| HttpService.HttpServiceImpl.JoinAndNotify | garnet/bin/http/http_service_impl.cc:98-107 | is the protocol's join |
| HttpService.HttpServiceImpl.RunMainLoop | garnet/bin/http/http_service_impl.cc:63-128 | running the oldest main task is the protocol's main step, and keeps the invariant |
| HttpService.HttpServiceImpl.RunIoLoop | garnet/bin/http/http_service_impl.cc:78-93 | running the oldest IO task is the protocol's IO step; it keeps the invariant and does not crash |
| HttpService.HttpServiceImpl.Start | garnet/bin/http/http_url_loader_impl.cc:31-38 | is the protocol's client step, and keeps the invariant |
| HttpService.HttpServiceImpl.StopOnIOThread | garnet/bin/http/http_service_impl.cc:123-128 | is the protocol's binding error, and keeps the invariant |
| UrlLoader.ClientSane | garnet/bin/http/http_client.h:190-535 | on every sequence of completions a client answers at most once, and only when nothing more can make it answer |
| UrlLoader.ClientRepliesOnce | garnet/bin/http/http_client.h:190-535 | however its completions come, one request has at most one answer; if it is left with a redirect status beside an answer it has no location to follow |
| UrlLoader.ContradictoryIff | garnet/bin/http/http_client.h:326-345 | a client answers and leaves a redirect status exactly if it gave up while that status stood in `status_code_` |
| UrlLoader.LoopOutcome | garnet/bin/http/http_url_loader_impl.cc:71-172 | from any iteration reached: at most 20 requests and one answer; crash and too-many-redirects each with its exact condition |
| UrlLoader.StartOutcome | garnet/bin/http/http_url_loader_impl.cc:65-172 | every run of one Start makes at most 20 requests and delivers at most one answer; the callback is called again exactly if some client contradicts itself; too many redirects are reported exactly if the history has a twenty-first URL |
| UrlLoader.OneAnswer | garnet/bin/http/http_client.h:326-345 | with a non-redirect initial status and redirect codes stored only by accepted status lines nothing crashes |
| UrlLoader.PoliteClient | garnet/bin/http/http_client.h:326-345 | such a client has a redirect status only without an answer |
| UrlLoader.RefusedRedirectCrashes | garnet/bin/http/http_client.h:326-345 | a status line that begins with something else than HTTP/ and carries 301 leads to a second call of the callback |
| UrlLoader.LastTargetNeedNotBeHttp | garnet/bin/http/http_url_loader_impl.cc:71-172 | twenty redirects of which the last leads to another scheme are reported as too many |
| UrlLoader.URLLoaderImpl.SendResponse | garnet/bin/http/http_url_loader_impl.cc:65-69 | swaps the callback out and calls it, or crashes if it is empty |
| UrlLoader.URLLoaderImpl.FollowOnce | garnet/bin/http/http_url_loader_impl.cc:104-170 | one iteration of the loop takes the loader to the state the specification gives, and says whether to go on |
| UrlLoader.URLLoaderImpl.RunStart | garnet/bin/http/http_url_loader_impl.cc:31-172 | the loop ends with the loader of the specification |
| UrlAnswers.ClientAnswers | garnet/bin/http/http_client.h:190-535 | for every sequence of completions, of any length, the client ends as their positions say, without running it: the error of the first operation that fails while connecting and sending, a refused status line, the response with the stored status, or silence; and with which status and location |
| UrlAnswers.FirstFailureIs | garnet/bin/http/http_client.h:190-272 | connecting ends at the first completion that fails, or after two of them, three with https |
| UrlAnswers.HeadersEndIs | garnet/bin/http/http_client.h:273-291 | the request's headers are written by the completions up to the first that leaves nothing of them |
| UrlAnswers.BodyEndIs | garnet/bin/http/http_client.h:294-323 | the request's body is written by the completions up to the first after which there is no more |
| UrlAnswers.PlainExchange | garnet/bin/http/http_client.h:438-535 | if connecting, sending, status line and headers succeed, the answer is exactly the response with the status of the status line, streamed or buffered; a 301 or 302 is left without an answer, with the location to follow |
| UrlAnswers.SilentIff | garnet/bin/http/http_client.h:326-495 | a client ends without an answer exactly if the request is sent and the status line cannot be read, or it is accepted and the headers cannot be read, are those of a redirect, or there is no socket |
| UrlAnswers.LastMade | garnet/bin/http/http_url_loader_impl.cc:104-170 | a request that is made and not redirected to a valid URL ends the loop with its own answer, with invalid response if it was redirected to no valid URL, or with none; it crashes exactly if it has an answer and a redirect status |
| UrlAnswers.TurnAnswers | garnet/bin/http/http_url_loader_impl.cc:104-170 | a request redirected to a valid URL goes on with that URL, and after the twentieth reports too many redirects |
| UrlAnswers.StartAnswers | garnet/bin/http/http_url_loader_impl.cc:31-172 | for every environment and URL: the answer of a Start is that of the last request reached by following redirects, or the loop's own error under its exact condition; with it the number of requests made and whether the callback is called twice |
| UrlAnswers.PlainStart | garnet/bin/http/http_url_loader_impl.cc:31-172 | a Start whose first request succeeds with no redirect answers exactly its response |
| BodyTransfer.ChunkEnds | garnet/bin/http/http_client.h:358-380 | for every sequence of results of the socket: the bytes sent are those that the calls made took; a buffer is sent in full exactly on success, and then no call was one too many; it fails exactly if the last call made failed, and it blocks only when all calls are used up |
| BodyTransfer.ChunkTakes | garnet/bin/http/http_client.h:358-380 | out of one buffer goes the sum of what the writes made offer to take, capped at the buffer; before the last call it was less than the buffer |
| BodyTransfer.BodyEnds | garnet/bin/http/http_client.h:348-384 | the same for a whole buffered body, sent one transfer buffer after the other, each write capped at what is left of its buffer |
| BodyTransfer.PiecesEnd | garnet/bin/http/http_client.h:494-535 | the same for all the pieces of a body over repeated callbacks |
| BodyTransfer.AllArrives | garnet/bin/http/http_client.h:494-535 | if no call fails, what arrives of a body is what the writes take, and the whole body arrives exactly if they take all of it |
| BodyTransfer.EnoughWrites | garnet/bin/http/http_client.h:494-535 | so it does if there are at least as many writes that get somewhere as bytes |
| BodyTransfer.ResponseStream.WriteChunk | garnet/bin/http/http_client.h:358-380 | the inner loop ends as specified for the calls to come, having written exactly that prefix of the buffer |
| BodyTransfer.ResponseStream.SendStreamedBody | garnet/bin/http/http_client.h:348-384 | the nested loops end as specified, having written exactly that prefix of the buffered bytes, in order: all of them on success |
| BodyTransfer.ResponseStream.StreamBody | garnet/bin/http/http_client.h:494-535 | over repeated callbacks exactly the specified prefix of all body bytes received is written, all of them on success; the stream is closed by a failure or by the end of the connection, and stays open in a wait that does not end |
| BodyTransfer.VmoUploadElementReader.ReadAvailable | garnet/bin/http/upload_element_reader.cc:67-91 | appends the next block of the VMO, up to 1024 bytes, reports more exactly if there were any, and stops only at the size or on failure; it fails exactly if the read goes beyond the VMO or breaks |
| BodyTransfer.NextBlock | garnet/bin/http/http_client.h:294-308 | a block is read exactly when everything buffered has been sent; it ends at the size, or at a read that breaks or goes beyond the VMO |
| BodyTransfer.OnWriteRequestBody | garnet/bin/http/http_client.h:312-323 | a completed write takes the bytes it says, at least one and at most what is buffered, from the front of the buffer |
| BodyTransfer.WriteRequestBody | garnet/bin/http/http_client.h:294-323 | for every sequence of partial transfers the bytes sent are a prefix of the VMO, as many as the transfers made take, each capped at what is left of its block; at the end they are exactly the first `size` bytes, as many as the Content-Length of section 3.3.2 of RFC 7230 announced; it fails exactly at a read or write made that breaks, or where the VMO ends; the loop ends |
| KtraceReader.Len | zircon/system/ulib/zircon-internal/include/lib/zircon-internal/ktrace.h:34-34 | a record is at most 120 bytes long, in units of eight |
| KtraceReader.LenOfNibbles | zircon/system/ulib/zircon-internal/include/lib/zircon-internal/ktrace.h:34-34 | only the low four bits of a tag's first byte give the length, in units of eight bytes |
| KtraceReader.RecordIsThere | garnet/bin/ktrace_provider/reader.cc:14-33 | a record is complete if and only if sixteen bytes and the bytes that its tag counts are there |
| KtraceReader.RecordsOfConcat | garnet/bin/ktrace_provider/reader.cc:14-45 | cutting a concatenation of complete records gives back those records |
| KtraceReader.ConcatOfRecords | garnet/bin/ktrace_provider/reader.cc:14-45 | the records of a well-formed stream make up the stream |
| KtraceReader.DeviceReader.Compact | garnet/bin/ktrace_provider/device_reader.cc:23-24 | the buffered bytes are moved to the front, all other bytes of the buffer stay |
| KtraceReader.DeviceReader.Fill | garnet/bin/ktrace_provider/device_reader.cc:26-34 | for any short reads the buffer is filled, or the device emptied, with the stream's bytes in order |
| KtraceReader.DeviceReader.ReadMoreData | garnet/bin/ktrace_provider/device_reader.cc:22-38 | what is still to be read does not change, and the copy overlaps exactly if fewer bytes were consumed than are buffered |
| KtraceReader.DeviceReader.CheckHeader | garnet/bin/ktrace_provider/reader.cc:15-22 | decides exactly whether the stream still has a header |
| KtraceReader.DeviceReader.CheckLength | garnet/bin/ktrace_provider/reader.cc:24-33 | the second length check, through the place where the tag was, decides as the record's own length would, except when Misread holds |
| KtraceReader.DeviceReader.Consume | garnet/bin/ktrace_provider/reader.cc:35-39 | hands out the record's bytes, steps over them and counts them |
| KtraceReader.DeviceReader.ReadNextRecord | garnet/bin/ktrace_provider/reader.cc:14-45 | on every stream the next record is the one plain parsing finds, with counters to match; the one exception is a cut-off record under the exact condition Misread |
| KtraceReader.ParsedConcat | garnet/bin/ktrace_provider/reader.cc:14-45 | plain parsing splits any stream into its complete records and a rest |
| KtraceReader.ReadUntilEnd | garnet/bin/ktrace_provider/importer.cc:126-142 | on any stream without a record of length zero, for any schedule of short reads: exactly the complete records in order, with counters to match, and the rest left pending; the one exception is a misread cut-off rest, handed out as one record more |
| KtraceReader.ReadAll | garnet/bin/ktrace_provider/importer.cc:126-142 | on a stream of complete records, for any schedule of short reads, exactly those records in order and then none; byte and record counters equal the totals; no copy overlaps |
| KtraceReader.ReadBack | garnet/bin/ktrace_provider/importer.cc:126-142 | a device that holds the concatenation of any complete records is read back as those records |
| KtraceReader.CutOffRecordIsHandedOut | garnet/bin/ktrace_provider/reader.cc:28-33 | a concrete trace whose incomplete last record is handed out |
| KtraceReader.ReadEmpties | garnet/bin/ktrace_provider/reader.cc:35-39 | a record whose length field is zero is handed out as an empty one any number of times, and the stream stays as it was |
| KtraceReader.ZeroLengthStays | garnet/bin/ktrace_provider/reader.cc:35-39 | a concrete stream of which that is true |
| KtraceSyscalls.CpuTable | garnet/bin/ktrace_provider/importer.cc:1057-1082 | the per-CPU table holds the thread, and its reference, that the last switch on that CPU switched to |
| KtraceSyscalls.Unpacks | garnet/bin/ktrace_provider/importer.cc:199-202 | taking CPU and syscall out of a word, or the CPU out of a context switch, undoes packing them |
| KtraceSyscalls.RunningOnIs | garnet/bin/ktrace_provider/importer.cc:233-246 | by position: on a CPU runs what the last switch of that CPU names, the user thread or, if that is zero, the kernel thread; nothing before the first |
| KtraceSyscalls.SwitchesExpected | garnet/bin/ktrace_provider/importer.cc:601-618 | for every history one context switch is written for each record of one, in order, out of the thread that the last switch on that CPU went into |
| KtraceSyscalls.OpenIsUnique | garnet/bin/ktrace_provider/importer.cc:550-585 | a thread has at most one syscall open |
| KtraceSyscalls.DurationsAreOpenEnters | garnet/bin/ktrace_provider/importer.cc:550-585 | the pending durations are exactly the open enters of the history |
| KtraceSyscalls.EmitsExpected | garnet/bin/ktrace_provider/importer.cc:550-585 | for every history one duration is emitted for each exit that pairs with its thread's latest enter of the same syscall, in order, and no others; CPU and syscall are the low byte of the record's word and what is above it |
| KtraceSyscalls.SpanByNumbers | garnet/bin/ktrace_provider/importer.cc:199-202 | a thread that enters a syscall and leaves it, on whatever CPUs, with no other enter and no exit of that syscall in between, is given the span between the two, by the numbers packed into the records |
| KtraceSyscalls.SpansDisjoint | garnet/bin/ktrace_provider/importer.cc:550-585 | with nondecreasing timestamps the durations of one thread have begin before end and never overlap |
| KtraceSyscalls.Importer.HandleSyscallEnter | garnet/bin/ktrace_provider/importer.cc:550-561 | makes the step of the specification |
| KtraceSyscalls.Importer.HandleSyscallExit | garnet/bin/ktrace_provider/importer.cc:563-585 | makes the step of the specification |
| KtraceSyscalls.Importer.HandleContextSwitch | garnet/bin/ktrace_provider/importer.cc:601-618 | makes the step of the specification |
| KtraceSyscalls.Importer.Import | garnet/bin/ktrace_provider/importer.cc:126-142 | importing any history emits the durations and context switches the history calls for, durations disjoint per thread if time is ordered |
| KtraceChannels.IdTable | garnet/bin/ktrace_provider/importer.cc:830-840 | the id table knows exactly the channels created, each under the id of its pair |
| KtraceChannels.SameIdIffCreatedTogether | garnet/bin/ktrace_provider/importer.cc:830-840 | two ends share a pair id if and only if one record created both |
| KtraceChannels.CountersCount | garnet/bin/ktrace_provider/importer.cc:794-876 | the counters of a pair are the numbers of its writes and reads since either end was last deleted |
| KtraceChannels.EmitsExpected | garnet/bin/ktrace_provider/importer.cc:842-876 | for every history the flow id of a write is the number of earlier writes to either end of its pair since either end was last deleted, likewise for reads; unknown channels emit nothing |
| KtraceChannels.WritesShareId | garnet/bin/ktrace_provider/importer.cc:842-858 | two writes, of one pair or two, have the same flow id if and only if equally many writes to their pairs went before them since the last deletion |
| KtraceChannels.ReadSharesId | garnet/bin/ktrace_provider/importer.cc:842-876 | a read has the flow id of a write if and only if they are the k-th read and the k-th write since the last deletion, for the same k |
| KtraceChannels.IdsIncrease | garnet/bin/ktrace_provider/importer.cc:842-858 | between deletions the ids of a pair's writes increase |
| KtraceChannels.MessageKeepsId | garnet/bin/ktrace_provider/importer.cc:794-876 | the m-th read over a pair's life has the id of the m-th write if and only if the writes before the last deletion ahead of the write are as many as the reads before the last deletion ahead of the read |
| KtraceChannels.UndeletedKeepsIds | garnet/bin/ktrace_provider/importer.cc:842-876 | while neither end is deleted every message is read with the id it was written with |
| KtraceChannels.DeletionMixesMessages | garnet/bin/ktrace_provider/importer.cc:794-801 | a history in which the second message is written with id 1 and, after a deletion, read with id 0 |
| KtraceChannels.FlowIdsCollide | garnet/bin/ktrace_provider/importer.cc:842-858 | the first writes of two different channels get the same flow id |
| KtraceChannels.Importer.HandleChannelCreate | garnet/bin/ktrace_provider/importer.cc:830-840 | makes the step of the specification |
| KtraceChannels.Importer.HandleChannelWrite | garnet/bin/ktrace_provider/importer.cc:842-858 | makes the step of the specification |
| KtraceChannels.Importer.HandleChannelRead | garnet/bin/ktrace_provider/importer.cc:860-876 | makes the step of the specification |
| KtraceChannels.Importer.HandleObjectDelete | garnet/bin/ktrace_provider/importer.cc:794-801 | makes the step of the specification |
| KtraceChannels.Importer.Import | garnet/bin/ktrace_provider/importer.cc:126-142 | importing any history emits the flows the history calls for |
| CpuperfImporter.PackIsSum | garnet/bin/cpuperf_provider/importer.h:100-104 | on 32 bits, shifting and or-ing is the sum that the model uses, without overflow |
| CpuperfImporter.KeyInjective | garnet/bin/cpuperf_provider/importer.h:100-104 | keys are equal if and only if CPU and event are |
| CpuperfImporter.EventTracker.UpdateTime | garnet/bin/cpuperf_provider/importer.h:46-49 | sets the time of one entry, keeps its count and every other entry |
| CpuperfImporter.EventTracker.UpdateValue | garnet/bin/cpuperf_provider/importer.h:59-63 | sets the value of one entry, keeps its time and every other entry |
| CpuperfImporter.EventTracker.AccumulateCount | garnet/bin/cpuperf_provider/importer.h:65-69 | adds to the count of one entry modulo 2^64, keeps its time and every other entry |
| CpuperfImporter.TimeIsLast | garnet/bin/cpuperf_provider/importer.cc:90-110 | by position: the time at a record is that of the last time record up to it, with or without an event, and the initial time if there is none |
| CpuperfImporter.TableTimes | garnet/bin/cpuperf_provider/importer.cc:92-110 | the clock is that time, and the table's time for a CPU and event is that of its latest record in the history, the start time if there is none |
| CpuperfImporter.ClassesMatch | garnet/bin/cpuperf_provider/importer.cc:92-135 | every record read falls in exactly one of time-only, backward, empty, late and accepted, by comparing the time the history gives it with the previous time of its CPU and event and with the stop time |
| CpuperfImporter.AcceptedTile | garnet/bin/cpuperf_provider/importer.cc:92-180 | if no in-range record of a key goes back in time, its accepted intervals tile the span from the start time to the last in-range time, without gap or overlap |
| CpuperfImporter.TableSums | garnet/bin/cpuperf_provider/importer.cc:145-152 | in tally mode the table holds the sum of the accepted counts of exactly that CPU and event modulo 2^64 |
| CpuperfImporter.TallyIsSum | garnet/bin/cpuperf_provider/importer.cc:332-351 | what is emitted for an event fed by no value records is zero at the start time and that sum at the stop time, and nothing if it was never recorded |
| CpuperfImporter.TallyIsLastValue | garnet/bin/cpuperf_provider/importer.cc:332-351 | what is emitted for an event whose last accepted and tallied record is a value is that value, once, at the stop time |
| CpuperfImporter.TableKnows | garnet/bin/cpuperf_provider/importer.cc:92-180 | the table has an entry exactly for the CPUs and events that were recorded |
| CpuperfImporter.EmitCpuTallies | garnet/bin/cpuperf_provider/importer.cc:337-350 | the inner loop emits the tallies of one CPU in order |
| CpuperfImporter.EmitTallyCounts | garnet/bin/cpuperf_provider/importer.cc:332-351 | the nested loops emit the tallies of all CPUs and events in order |
| CpuperfImporter.TallyRecord | garnet/bin/cpuperf_provider/importer.cc:136-175 | an accepted record changes exactly its own entry, by its kind |
| CpuperfImporter.HandleRecord | garnet/bin/cpuperf_provider/importer.cc:92-180 | one turn of the record loop classifies the record and changes the table as the history says |
| CpuperfImporter.ImportRecords | garnet/bin/cpuperf_provider/importer.cc:75-200 | the record loop leaves tracker and intervals as the history says, counts every record and warns about exactly the backward, empty and late ones |
| GptLayout.FitFat | tools/make-fuchsia-vol/make-fuchsia-vol.go:640-649 | a whole number of FAT tracks, less than one track below the given size |
| GptLayout.AlignTo | tools/make-fuchsia-vol/make-fuchsia-vol.go:602-608 | the alignment is the greatest of the logical, physical and optimal sizes |
| GptLayout.MakeLayout | tools/make-fuchsia-vol/make-fuchsia-vol.go:305-396 | the code that threads the end of the last partition computes the layout of the specification |
| GptLayout.PlaceHolds | tools/make-fuchsia-vol/make-fuchsia-vol.go:601-623 | whatever the address and the size, the partition placed holds the bytes asked for, with less than a block to spare, or exactly two if they are a whole number of blocks |
| GptLayout.PlaceAfter | tools/make-fuchsia-vol/make-fuchsia-vol.go:601-623 | a partition placed some blocks after the beginning of a unit starts at the next unit, unless these blocks are whole units: then it starts at block zero |
| GptLayout.ChainStep | tools/make-fuchsia-vol/make-fuchsia-vol.go:349-377 | a partition appended to a proper chain keeps it proper if and only if the one before it does not take up whole units |
| GptLayout.ChainProper | tools/make-fuchsia-vol/make-fuchsia-vol.go:305-377 | for every configuration EFI, A, B and R are aligned, ordered and disjoint if and only if the first usable block is unaligned (or zero) and, with A, B and R, neither the EFI partition nor A and B take up whole units; then the last one starts at a known unit |
| GptLayout.FvmPlaced | tools/make-fuchsia-vol/make-fuchsia-vol.go:379-395 | FVM starts at a known unit, or at block zero if the last partition and one more block are whole units; with a given size it holds that size and at most two blocks more, without one it ends at the last usable block |
| GptLayout.ProperIff | tools/make-fuchsia-vol/make-fuchsia-vol.go:305-396 | for every configuration the inclusive block ranges (section 5.3.3 of the UEFI Specification) are aligned, ordered and disjoint if and only if the chain is and, with FVM, the last partition and one more block are not whole units and there is room |
| GptLayout.AllHold | tools/make-fuchsia-vol/make-fuchsia-vol.go:305-396 | in every layout EFI, A, B, R and an FVM partition of a given size hold the bytes asked for, with less than a block to spare, or exactly two; an FVM partition of no given size ends at the last usable block |
| GptLayout.FvmStart | tools/make-fuchsia-vol/make-fuchsia-vol.go:379-395 | in a proper layout FVM starts at the unit that the sizes give |
| GptLayout.FatFits | tools/make-fuchsia-vol/make-fuchsia-vol.go:310-312 | the FAT geometry is a whole number of tracks, no more than was asked for and less than a track and two blocks short of it; with a size in whole blocks less than a track short |
| GptLayout.FatEndIs | tools/make-fuchsia-vol/make-fuchsia-vol.go:313-315 | the last block of the FAT geometry is the last one that it fills |
| GptLayout.FatInsideIff | tools/make-fuchsia-vol/make-fuchsia-vol.go:310-315 | the FAT geometry ends inside the EFI partition if and only if that has a block beyond its first or a block is smaller than a track |
| GptLayout.RegularProperIff | tools/make-fuchsia-vol/make-fuchsia-vol.go:305-396 | with sizes in whole alignment units the layout is proper if and only if the first usable block is unaligned and, with FVM, the alignment is at least three blocks and there is room |
| GptLayout.AlignedFirstBlock | tools/make-fuchsia-vol/make-fuchsia-vol.go:305-309 | an aligned first usable block puts the EFI partition at block zero |
| GptLayout.SevenBlocks | tools/make-fuchsia-vol/make-fuchsia-vol.go:349-353 | an EFI size of seven blocks with an alignment of eight puts A at block zero |
| GcsReader.FullFollows | tools/bootserver/image.go:117-126 | for any results of the stream a full read gives the bytes that follow the position, all of them exactly without an error, and reports the end only there |
| GcsReader.SteadyFull | tools/bootserver/image.go:117-126 | on an open stream with enough steady reads to come it does not break, and uses no more reads than bytes, and one |
| GcsReader.RandomRead | tools/bootserver/image.go:102-131 | a stateless read is short only at the end of the object |
| GcsReader.AtCorrect | tools/bootserver/image.go:102-131 | in every state and for any offset and length: the bytes are those at the offset, short only together with an error and filled only without one, and without a failure exactly those of a stateless read |
| GcsReader.ForwardReadsOn | tools/bootserver/image.go:102-112 | a read at or after the position uses the connection there is; one before it, or the first, takes a new connection, and fails without a byte if there is none |
| GcsReader.OpenIff | tools/bootserver/image.go:102-112 | after a call there is an open stream if and only if the call opened one or read on from one |
| GcsReader.SteadyAt | tools/bootserver/image.go:102-131 | where the object can be opened if need be, or the stream is open, and the reads to come are steady and enough, the answer is that of a stateless read |
| GcsReader.ClosedAt | tools/bootserver/image.go:102-131 | a closed stream answers a forward read with a failure exactly if there is anything to read, and stays |
| GcsReader.CallsCorrect | tools/bootserver/image.go:102-131 | after any sequence of calls every answer is one a caller can rely on |
| GcsReader.HealthyCalls | tools/bootserver/image.go:102-131 | on a healthy connection every call of any sequence is answered exactly as by a stateless read |
| GcsReader.FailedReopeningStays | tools/bootserver/image.go:103-108 | after a failed reopening a forward read of a healthy object fails |
| GcsReader.ReadFull | tools/bootserver/image.go:117-126 | reads and ends as specified, leaving the stream where the bytes end |
| GcsReader.GcsObjectReader.Continue | tools/bootserver/image.go:113-131 | skips ahead and reads on as specified, with `index` at the stream's true position |
| GcsReader.GcsObjectReader.ReadAt | tools/bootserver/image.go:102-131 | new state and answer are those of the specification, and `index` is the stream's true position |
| GcsReader.ReadMany | tools/bootserver/image.go:102-131 | any sequence of calls is answered as specified, by stateless reads if the connection is healthy |
| GnLabels.PiecesCut | scripts/gn_complete/complete.py:221-230 | the pieces of a path make up the path, with a slash in front of every piece but perhaps the first and nowhere else |
| GnLabels.CutUnique | scripts/gn_complete/complete.py:221-230 | there is only one such list of pieces |
| GnLabels.PartsAre | scripts/gn_complete/complete.py:204-217 | the toolchain of a label is what stands from its last opening parenthesis on, if it ends with a closing one; the target is what stands from the first colon on |
| GnLabels.SplitJoins | scripts/gn_complete/complete.py:184-238 | joining the segments of any label gives the label back; there is at least one segment, and only the empty label has an empty one |
| GnLabels.SplitShape | scripts/gn_complete/complete.py:184-238 | target and toolchain make up the last segment; an absolute label has `//` as its first segment if and only if it is not just that and a toolchain |
| GnLabels.RootWithToolchain | scripts/gn_complete/complete.py:233-237 | the root with a toolchain is a single segment |
| GnLabels.CutPath | scripts/gn_complete/complete.py:221-230 | the loop computes the pieces |
| GnLabels.SplitLabel | scripts/gn_complete/complete.py:184-238 | computes the segments, and fails exactly on a label that ends in a parenthesis it never opens |
| GnLabels.CutInsideToolchain | scripts/gn_complete/complete.py:206-210 | a splittable target whose rest after a search label inside its toolchain cannot be split |
| GnLabels.RelativeHasPrefix | scripts/gn_complete/complete.py:142-181 | whatever target matches the joined prefix, made relative it starts with the search label |
| GnLabels.RelativeRoundTrip | scripts/gn_complete/complete.py:142-181 | joining undoes making relative if and only if Rejoins holds of base and rest |
| GnLabels.SiblingTakenForChild | scripts/gn_complete/complete.py:168-181 | a target beside the base is shown as one below it |
| GnComplete.InsertHas | scripts/gn_complete/complete.py:57-59 | inserting a label adds its prefixes to the trie and nothing else |
| GnComplete.LongestCommon | scripts/gn_complete/complete.py:84-91 | the descent stops at the longest segment list that all maximal labels begin with |
| GnComplete.CompletedUnique | scripts/gn_complete/complete.py:61-98 | a set of labels and a prefix have only one set of completions |
| GnComplete.ChoicesOfMaximal | scripts/gn_complete/complete.py:93-98 | the completions are exactly that list extended by each next segment of a maximal label, or the one maximal label itself |
| GnComplete.ExtendsUnlessBuried | scripts/gn_complete/complete.py:61-98 | an inserted label extends exactly one completion if and only if it is not continued by another label while all are comparable with it |
| GnComplete.ShorterLabelMissing | scripts/gn_complete/complete.py:61-98 | of the labels a and a:b only the second is offered |
| GnComplete.IndependentLabels | scripts/gn_complete/complete.py:61-98 | where no label continues another every label extends exactly one completion |
| GnComplete.Completions.InsertLabel | scripts/gn_complete/complete.py:45-59 | inserts the segments after the prefix; fails, changing nothing, exactly without the prefix or on an unsplittable rest |
| GnComplete.Completions.ListCompletions | scripts/gn_complete/complete.py:61-98 | yields exactly the completions of the inserted labels, none if there are none |
| GnComplete.ShownHasPrefix | scripts/gn_complete/complete.py:241-258 | the labels built by `main` always meet the requirement of `insert_label` |
| GnComplete.Complete | scripts/gn_complete/complete.py:241-261 | the program fails exactly if the search label cannot be joined or some matching rest cannot be split, and otherwise lists the completions of the matching targets |
| FidlPaths.FilesTaken | tools/fidlcat/command_line_options.cc:274-340 | the files taken are exactly the entries whose names end in .fidl.json and are no directories; given ones have to be regular files too |
| FidlPaths.RouteStaysIn | tools/fidlcat/command_line_options.cc:313-340 | a set with the given directories and all subdirectories of its own holds everything reachable |
| FidlPaths.ReadDirectory | tools/fidlcat/command_line_options.cc:322-333 | one directory adds each of its files, notes its subdirectories, and queues exactly those not noted before, once each |
| FidlPaths.AllCounted | tools/fidlcat/command_line_options.cc:313-340 | every directory is read once for each time it was given, and once more if it is found in a directory that can be reached |
| FidlPaths.Visit | tools/fidlcat/command_line_options.cc:321-339 | one entry is read as a directory, taken as a file or reported |
| FidlPaths.ExpandFidlPaths | tools/fidlcat/command_line_options.cc:313-340 | on every finite directory graph, cyclic ones included, the worklist ends; the files are, as a set, exactly those given or found in reachable directories, each added as often as it is given or its directory is read, which is counted exactly; the bad paths are exactly the given entries that are neither |
| FormatSize.StillGoesOn | scripts/memory/treemap.py:113-118 | a size is divided a seventh time if and only if it is too large for the letters |
| FormatSize.RoundingError | scripts/memory/treemap.py:123-124 | the rounded tenths are at most ten and less than a tenth of the unit off |
| FormatSize.ReducedIsQuotient | scripts/memory/treemap.py:113-118 | dividing by 1024 again and again gives the quotient by the unit |
| FormatSize.Divide | scripts/memory/treemap.py:108-118 | the loop ends with quotient and remainder of the size by its unit, and `whole` says whether the remainder is zero |
| FormatSize.Format | scripts/memory/treemap.py:91-129 | the unit is the first of which there are neither 10000 nor a multiple of 1024; a value without a decimal is exact; one with a decimal is not a whole number of units, less than a tenth of its unit off, and its digit is the rounded hundreds of the smaller units left over; there is no letter exactly for sizes too large |
| FormatSize.NoLetter | scripts/memory/treemap.py:108-118 | 1024 to the seventh power is the smallest size without a letter |

## Left out

- Destroying the whole HTTP service, and with it containers that were not stopped; logging.
- Sockets, VMOs, TLS, name resolution and FIDL bindings themselves: their results are inputs.
- SocketUploadElementReader, SendBufferedBody, certificate checks and header parsing in the HTTP client.
- That the request body is consumed by the first request and not sent again after a redirect.
- ktrace handlers other than syscalls, context switches and channels; names and string references; registering thread references never fails. Virtual CPU durations follow the pattern of syscall durations.
- Thread states and priorities in context switches are kept as the word of the record they are unpacked from.
- KtraceReader.ReadUntilEnd: what happens after a record has been misread, when the reader is past its data and the available bytes wrap around.
- Wrap-around of 64-bit message counters, record counters and warning counters.
- CpuperfImporter.TallyIsSum: the list of events is taken from the configuration, and an event is assumed to occur in it once; names of events are not looked up.
- Rates computed in floating point by EmitSampleRecord, and last-branch records.
- GptLayout.ProperIff: 64-bit wrap-around of block addresses, since sizes are far below 2^63; only the conversion of a negative FAT size is modelled. That partitions end before the last usable block is not part of being proper, since the tool leaves it to a later validation.
- GPT and MBR reading and writing, CHS bytes, mkfs and file copying in make-fuchsia-vol.
- GnComplete.Completions.ListCompletions: completions are a set, their order is that of a dictionary; the nested dictionaries are values, not updated in place. A completion is compared with labels by segments, not by characters.
- FidlPaths.ExpandFidlPaths: the order of files is not described. Names from a directory iterator extend the directory's name, so that a cycle of names, which the graph allows, cannot come from it; symbolic links that make ever longer names, and argument files, are not part of the model.
- FormatSize.Format: the decimal digits of the printed text are not spelt out; negative sizes are not modelled.
