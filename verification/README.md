# Verification of the APISIX plugin runner and its billing plugins

This project models the Go plugin runner that Apache APISIX calls over a socket, the billing plugins of
NFT-Rainbow that run in it, and the cleaner of their request logs. Each module is a part of the program:
methods and classes have the form of the code, and lemmas state what the code is for.

- `Quota.dfy`, `QuotaBound.dfy`, `QuotaReach.dfy`, `QuotaCode.dfy`, `QuotaExamples.dfy`: the billing quota. `Quota` is a transition system with one
  step per Redis command; requests and settlements interleave freely, commands fail before or after the server
  applied them, records expire, and the settlement service lowers `count`. `QuotaBound` balances what is counted and
  what is in flight, command by command, and bounds it; `QuotaReach` says what a run can still reach. `QuotaCode` has the two filters as
  they are written and shows that each call is a run of that system. `QuotaExamples` has the runs that show that
  the hypotheses are needed and that the bound is met.
- `Wire.dfy`, `Session.dfy`: frames over a connection that moves bytes in arbitrary pieces, and the serving loop
  with the ExtraInfo calls that nest in it.
- `Patch.dfy`, `Tracking.dfy`, `Requests.dfy`, `Responses.dfy`, `ReqResponses.dfy`: lazily decoded headers and
  arguments, the patches emitted for them in any map order, what the gateway makes of a patch, and the reuse of
  objects through a pool.
- `Snapshot.dfy`: the argument map as Go slices over shared arrays, and the clone that snapshots it.
- `ConfCache.dfy`: the two TTL caches of rule configurations, under time and expiry.
- `Chain.dfy`, `Programs.dfy`: a rule's plugins with early exit, and plugins as programs of operations on their
  objects.
- `RpcBatch.dfy`, `RpcStore.dfy`: the JSON-RPC plugins, and the records they keep between the request and the response
  phase while requests interleave.
- `Billing.dfy`: the count and JSON-RPC plugins on their objects, from the headers the parser writes to what is booked
  and credited.
- `CallHandler.dfy`: the handler of request-phase calls as a connection sees it, built from the programs of a rule's
  plugins.
- `BuilderPool.dfy`: who holds which pooled message builder, in every interleaving of connections.
- `Cleaner.dfy`: the batch deletion of expired logs.

## Findings

Properties that one might expect and that the code does not have. Each is stated with the exact condition under which
it holds or fails, and most also with a run that shows the failure.

- Check and increment are not atomic, and only `count` is checked: `count` can exceed the limit. An admission lets it,
  without another one, exactly when what is counted, what is in flight and the admitted cost together exceed the limit
  (`QuotaReach.AdmissionCanPassIff`). `QuotaBound.Overshoot` and `QuotaBound.OvershootByCrowd` bound it in every honest
  run, and `QuotaExamples.OvershootHappens` meets the bound for every crowd and cost.
- What is counted and in flight can also grow without an admission: exactly when a settlement loads a record whose cost
  is no longer its request's, one of a foreign key pays into the counter, or a request is admitted under another
  spelling of the counter's key (`QuotaBound.ExposureGrowsIff`). `QuotaExamples.OverlappingSettlementsOvershoot` is such
  a run. Under a spelling that settlement does not print, the check reads a counter that nobody pays into: every such
  request passes, and the counter that is paid into has no bound (`QuotaExamples.ForeignSpellingEscapes`).
- `pending` drifts when two settlements of one request overlap, when a final Del is lost, or when a user id or cost
  type is spelled in the header in another way than settlement prints it. `Quota.StepConserves` says that a DecrBy
  of that kind is the only step that does it.
- `MaxDataSize` is `2<<24 - 1`, that is 2^25 - 1, while a comment beside the read loop says that three bytes hold
  the length. Replies of 2^24 up to 2^25 - 2 bytes pass the guard and arrive damaged (`Session.GuardGap`).
- A read or write that fails inside an ask does not end the session: the handler gets an error, its reply is still
  written, and the loop goes on (`Session.SessionGoesOn`). The connection stays in step exactly when every ask and reply
  moved whole frames or nothing (`Session.AlignedIff`). When errors last, no further request is received
  (`Session.HandleConn`).
- Header patches compare and send only first values (`Patch.HeaderPatchExactIff`).
- An argument whose list was emptied in place is not deleted by the patch (`Patch.ArgsPatchCorrectIff`).
- A key hit in the configuration cache extends only the key's life, so it can hand out a token that is gone
  (`ConfCache.KeyOutlivesToken`, `ConfCache.ReissuedTokenLostIff`); with an expiry below 5 seconds the runner's
  fifth on top is cut away (`ConfCache.TtlOutlives`, `ConfCache.TokenGoneAtExpiry`).
- When the request body does not parse, the parser plugin writes a 400 and then dereferences the missing result. The
  call panics exactly then, if no other plugin panics (`RpcBatch.ParseErrorPanicsIff`), no reply leaves, and the connection is closed
  (`CallHandler.NoReplyOnParseError`).
- A response plugin that only looks at a header ends the chain (`Programs.RespGoesPastIff`).
- `deleteOneBatch` 0, which a configuration without the field gives, makes the cleaner's loop find the oldest
  expired document and delete nothing, for ever (`Cleaner.ProgressIff`).
- `Request.Body` never returns its builder to the pool (`BuilderPool.GivenUpIff`).

## Model

| member | source | states |
|---|---|---|
| Quota.QuotaLimit | apisix-go-plugin-runner/cmd/go-runner/plugins/count/quota.go:9-21 | mint and deploy have their own limits, every other cost type, known or not, 10000 |
| Quota.CheckAdmitsIff | apisix-go-plugin-runner/cmd/go-runner/plugins/count/count.go:86-98 | the step that reads `count` admits a request exactly when count and cost together are at most 5000 for a mint, 200 for a deployment and 10000 for anything else, and writes nothing |
| Quota.StepKeepsWellFormed | apisix-go-plugin-runner/cmd/go-runner/plugins/count/count.go:98-203 | in every interleaving a stored or loaded record is that of a request past RequestFilter, with its id, key and cost |
| Quota.StepConserves | apisix-go-plugin-runner/cmd/go-runner/plugins/count/count.go:172-180 | one Redis command keeps `pending` equal to the cost owed exactly when it is not a DecrBy of a cost already drawn or booked under another key |
| Quota.DisciplinedRunIsOrderly | apisix-go-plugin-runner/cmd/go-runner/plugins/count/count.go:152-203 | with one settlement at a time per request id, no settlement ever holds a cost that was drawn already |
| Quota.Conservation | apisix-go-plugin-runner/cmd/go-runner/plugins/count/count.go:98-106 | in every reachable state `pending` is the cost of the requests past their IncrBy and not past their DecrBy, lost ones included |
| Quota.Ledger | apisix-go-plugin-runner/cmd/go-runner/plugins/count/count.go:182-202 | in every run at all, `count` plus what the settlement service took out is the sum of the successes credited |
| QuotaBound.FlowBalance | apisix-go-plugin-runner/cmd/go-runner/plugins/count/count.go:82-202 | for every counter and whatever keys are counted for it: the exact change, by every Redis command in every state, of `count` plus what is in flight: what is admitted and what comes from nowhere, less what is lost |
| QuotaBound.ExposureGrowsIff | apisix-go-plugin-runner/cmd/go-runner/plugins/count/count.go:86-202 | other than by an admission that reads the counter it grows exactly when a request is admitted under another of its keys, a record is loaded whose owner no longer has its cost in flight, or a settlement of an outside key pays in; an admission that reads it keeps it within the limit plus what was in flight |
| QuotaBound.Overshoot | apisix-go-plugin-runner/cmd/go-runner/plugins/count/count.go:82-101 | in every honest run, for every counter and whatever keys are counted for it, `count` plus the cost in flight stays within the limit plus the largest cost in flight just before an admission that read the counter, plus what came from nowhere or was checked elsewhere |
| QuotaBound.DisciplinedOvershoot | apisix-go-plugin-runner/cmd/go-runner/plugins/count/count.go:82-101 | with one settlement at a time per request, and keys spelled alike, the bound holds without that last term |
| QuotaBound.OvershootByCrowd | apisix-go-plugin-runner/cmd/go-runner/plugins/count/count.go:82-101 | with at most k others in flight at each such admission, each of cost at most c, `count` stays within limit + k*c plus that last term; without it in disciplined runs |
| QuotaReach.PayAll | apisix-go-plugin-runner/cmd/go-runner/plugins/count/count.go:98-202 | from every state a run goes on, without admission or inflation, until everything in flight is in the counter its settlements pay into |
| QuotaReach.CounterCanPassIff | apisix-go-plugin-runner/cmd/go-runner/plugins/count/count.go:82-202 | every counter, however its keys are spelled, can pass a bound without another admission exactly when it and what is in flight under all its spellings are beyond it |
| QuotaReach.AdmissionCanPassIff | apisix-go-plugin-runner/cmd/go-runner/plugins/count/count.go:86-101 | an admission, under whatever key, lets the counter it will be paid into pass its limit exactly when that counter, what is in flight for it and the admitted cost together are beyond it |
| QuotaCode.RequestFilter | apisix-go-plugin-runner/cmd/go-runner/plugins/count/count.go:42-117 | for every outcome of parsing and of each Redis command: no status is written exactly when all is read, the user is rich, count and cost are at most 5000, 200 or 10000 by cost type, and both writes work, else 400; what `pending`, `count` and every record then are |
| QuotaCode.TryRequest | apisix-go-plugin-runner/cmd/go-runner/plugins/count/count.go:43-109 | the closure with its early returns, in that order, to the same end |
| QuotaCode.FilterBooks | apisix-go-plugin-runner/cmd/go-runner/plugins/count/count.go:86-106 | the same of what the call leaves in Redis and replies, as a function |
| QuotaCode.DeterminCount | apisix-go-plugin-runner/cmd/go-runner/plugins/count/count.go:152-203 | for every outcome of each command: `pending` of the canonical key falls by the record's cost if the DecrBy is applied; if it worked, `count` rises by the callback's value if there is a callback, else by the cost exactly for a status from 200 to 299, if that is positive and the IncrBy is applied; the deferred Del removes the record; nothing else changes |
| QuotaCode.SettleRecord | apisix-go-plugin-runner/cmd/go-runner/plugins/count/count.go:166-202 | the part before the deferred Del leaves what a settlement leaves whose Del is lost |
| QuotaCode.SettlementCredits | apisix-go-plugin-runner/cmd/go-runner/plugins/count/count.go:158-202 | the same of what a settlement leaves in Redis, as a function |
| QuotaCode.RequestCallIsARun | apisix-go-plugin-runner/cmd/go-runner/plugins/count/count.go:42-117 | each uninterrupted call of RequestFilter is a run of one request agent, forwarded exactly when no status is written |
| QuotaCode.SettlementCallIsARun | apisix-go-plugin-runner/cmd/go-runner/plugins/count/count.go:152-203 | each uninterrupted call of DeterminCount is a run of one settlement agent, disciplined and honest if the call is |
| QuotaCode.DefaultWithinCost | apisix-go-plugin-runner/cmd/go-runner/plugins/count/count.go:182-189 | without a callback a call never credits more than the cost |
| QuotaCode.SettlingAgainChangesNothing | apisix-go-plugin-runner/cmd/go-runner/plugins/count/count.go:158-169 | once a call's Del reached Redis, any number of later calls for that id change nothing |
| QuotaCode.SettlingChangesPendingIff | apisix-go-plugin-runner/cmd/go-runner/plugins/count/count.go:166-180 | a call that works changes `pending` exactly when the record is still there with a nonzero cost |
| QuotaExamples.OverlappingSettlementsDrawTwice | apisix-go-plugin-runner/cmd/go-runner/plugins/count/count.go:166-180 | two overlapping settlements of one request leave `pending` at minus its cost |
| QuotaExamples.OverlappingSettlementsOvershoot | apisix-go-plugin-runner/cmd/go-runner/plugins/count/count.go:166-202 | one request alone, settled twice at once, brings `count` to limit + limit with nothing else ever in flight, beyond the bound |
| QuotaExamples.LostDeleteDrawsTwice | apisix-go-plugin-runner/cmd/go-runner/plugins/count/count.go:159-164 | a Del that never reaches Redis lets a later settlement draw the cost again |
| QuotaExamples.ForeignSpellingDrifts | apisix-go-plugin-runner/cmd/go-runner/plugins/count/count.go:172-176 | a key that settlement prints in another way leaves one counter stuck and another negative |
| QuotaExamples.ForeignSpellingEscapes | apisix-go-plugin-runner/cmd/go-runner/plugins/count/count.go:79-98 | any number of requests under such a key are admitted, and bring the counter that is paid into to the sum of their costs |
| QuotaExamples.OvershootHappens | apisix-go-plugin-runner/cmd/go-runner/plugins/count/count.go:86-98 | for every k, and every c up to the limit, a run with at most k others of cost at most c in flight ends at exactly limit + k*c |
| Wire.RoundTripIff | apisix-go-plugin-runner/internal/server/server.go:125-129 | a frame followed by anything decodes to itself exactly when its payload is shorter than 2^24 bytes |
| Wire.LengthSurvives | apisix-go-plugin-runner/internal/server/server.go:140-143 | the length read back is the size modulo 2^24, for every type byte |
| Wire.HeaderBytes | apisix-go-plugin-runner/internal/server/server.go:140-143 | the type in the first byte, and the length in the other three, its highest byte first |
| Wire.LengthFromBytes | apisix-go-plugin-runner/internal/server/server.go:125-129 | the length is read from the last three bytes, whatever the first |
| Wire.StreamFidelity | apisix-go-plugin-runner/internal/server/server.go:118-155 | any sequence of frames that fit is recovered from the concatenation of their encodings, and what follows is decoded as if it stood alone |
| Wire.ReceivedArePrefix | apisix-go-plugin-runner/internal/server/server.go:118-137 | frames read off a stream are the first ones sent, in order |
| Wire.ReadBytes | apisix-go-plugin-runner/internal/util/msg.go:70-80 | whatever the pieces, the buffer holds the next bytes and the stream has moved by as many; enough of them unless an error is reported |
| Wire.WriteBytes | apisix-go-plugin-runner/internal/util/msg.go:82-92 | whatever the pieces, what leaves is a first part of the buffer, and all of it unless an error is reported |
| Session.GuardGap | apisix-go-plugin-runner/internal/server/server.go:98-110 | a reply that passes or fails the size guard survives the wire exactly outside 2^24 up to MaxDataSize |
| Session.ReadFrame | apisix-go-plugin-runner/internal/server/server.go:118-137 | a frame is returned exactly as it is decoded off the stream, and is missing only when the stream or the connection ended first |
| Session.Fill | apisix-go-plugin-runner/internal/util/msg.go:51-80 | a read loop with its check: the next bytes of the stream fill the buffer, or it fails |
| Session.WriteFrame | apisix-go-plugin-runner/internal/server/server.go:140-155 | what was written is a first part of the encoding, and all of it when no error is reported |
| Session.AskExtraInfo | apisix-go-plugin-runner/internal/http/request.go:349-401 | an ask, answered or not, writes a first part of one ExtraInfo frame, and takes at most a part of one frame once the question is written in full; an answered one moved both in full |
| Session.Exchange | apisix-go-plugin-runner/internal/http/request.go:349-401 | an ask that fails is reported to the handler, which goes on |
| Session.Dispatch | apisix-go-plugin-runner/internal/server/server.go:76-96 | the handler's asks and answers extend the history, every byte that moved is accounted for, and the reply is the one its final action calls for; which handler that is, and what it calls for, is in RepliesAre |
| Session.HandleConn | apisix-go-plugin-runner/internal/server/server.go:112-159 | every session is a history of receive, ask/answer pairs, one reply, that accounts for every byte in and out; a failed read or write of the loop, or a panic, ends it; when errors last, no request is received after an ask that broke |
| Session.SessionGoesOn | apisix-go-plugin-runner/internal/http/request.go:369-396 | a broken ask followed by its reply and the next request is a history |
| Session.AlignedIff | apisix-go-plugin-runner/internal/server/server.go:118-155 | both directions are at a frame boundary after every event exactly when every ask and reply moved whole frames or nothing |
| Session.PartIsWholeIff | apisix-go-plugin-runner/internal/http/request.go:381-396 | what a broken ask took is at a frame boundary exactly when it is nothing or a whole frame |
| Session.Receive | apisix-go-plugin-runner/internal/server/server.go:119-137 | a request at the head of the loop; when the stream runs out, all its frames have been received |
| Session.Serve | apisix-go-plugin-runner/internal/server/server.go:139-157 | one request served: a reply sent in full, or the session's end by panic or by a failed write |
| Session.Send | apisix-go-plugin-runner/internal/server/server.go:140-155 | one reply closes the request in progress |
| Session.ReplyAnswersLatest | apisix-go-plugin-runner/internal/server/server.go:85-95 | each reply answers the latest request, which has no other, under its type or the error type |
| Session.RepliesAre | apisix-go-plugin-runner/internal/server/server.go:46-58 | in every history the reply to a request of type 1, 2 or 4 is what PrepareConf, HTTPReqCall or HTTPRespCall made of its payload and answers: under the request's type if it is shorter than 2^25 - 1, else an error report; a request of any other type gets an error report |
| Session.AsksAre | apisix-go-plugin-runner/internal/server/server.go:76-96 | in every history each question is the one the handler of the request's type asks after the answers so far; a request of any other type asks nothing |
| Session.RepliedIff | apisix-go-plugin-runner/internal/server/server.go:70-95 | a request whose handler is done is followed by its one reply, or, exactly when it panicked, by nothing at all |
| Session.IntactBytes | apisix-go-plugin-runner/internal/server/server.go:118-137 | while no ask broke, the bytes read are the frames received and answered |
| Session.SessionFidelity | apisix-go-plugin-runner/internal/server/server.go:112-159 | what such a session received is a first part of what the peer sent, and all of it if no read failed early |
| Patch.Decode | apisix-go-plugin-runner/internal/http/request.go:94-102 | the decoding loop groups the entries by name, values in order |
| Patch.Deletions | apisix-go-plugin-runner/internal/http/request.go:222-231 | one valueless entry for each name that is gone, in any map order |
| Patch.HeaderChanges | apisix-go-plugin-runner/internal/http/request.go:217-243 | what the patch says of each name, in any map order, with all first values present |
| Patch.ArgChange | apisix-go-plugin-runner/internal/http/request.go:291-302 | the whole new list of a name that is new or not deeply equal |
| Patch.ArgsChanges | apisix-go-plugin-runner/internal/http/request.go:275-303 | what the patch says of each argument, in any order of both maps |
| Patch.Flatten | apisix-go-plugin-runner/internal/http/req-response.go:80-91 | each name's values in order, in any map order |
| Patch.BuildVector | apisix-go-plugin-runner/internal/http/req-response.go:92-98 | prepending from the last entry keeps the order |
| Patch.HeaderPatchCorrect | apisix-go-plugin-runner/internal/http/request.go:217-251 | the patch applied to the original headers leaves exactly the live names, each with its live first value; no name twice |
| Patch.HeaderPatchExactIff | apisix-go-plugin-runner/internal/http/request.go:232-242 | when the patched headers equal the live ones, later values included |
| Patch.ArgsPatchCorrectIff | apisix-go-plugin-runner/internal/http/request.go:275-311 | the patch applied to the original arguments gives the new ones exactly when no original name was left with an empty list |
| Patch.UnchangedEmitNothing | apisix-go-plugin-runner/internal/http/request.go:291-302 | unchanged names are not mentioned |
| Patch.FlattenRegroup | apisix-go-plugin-runner/internal/http/request.go:253-273 | a multi-valued map flattened in any order and decoded again is the same map, lists in order |
| Tracking.OpenAndEditSound | apisix-go-plugin-runner/internal/http/request.go:92-107 | once decoded, the snapshot is the message and stays so, and no live name is without a value |
| Tracking.EditMeans | apisix-go-plugin-runner/pkg/http/http.go:128-145 | what Add, through View, and Set and Del do to the list under their name, and that they do nothing to others |
| Tracking.FirstsReproduced | apisix-go-plugin-runner/internal/http/request.go:232-242 | a header patch gives every header, as Get reads it, its live first value |
| Tracking.QuestionIsAFrame | apisix-go-plugin-runner/internal/http/request.go:358-367 | nothing of a kept header buffer's old contents is sent |
| Requests.Request.OpenHeader | apisix-go-plugin-runner/internal/http/request.go:92-107 | decoding happens once, with its snapshot |
| Requests.Request.OpenArgs | apisix-go-plugin-runner/internal/http/request.go:131-145 | decoding happens once, with its snapshot |
| Requests.Request.Take | apisix-go-plugin-runner/internal/http/request.go:409-418 | a pooled object takes a message and keeps everything else |
| Requests.Request.Clear | apisix-go-plugin-runner/internal/http/request.go:192-205 | what Reset clears, and the snapshots and the buffer that it keeps |
| Requests.Request.AskExtraInfo | apisix-go-plugin-runner/internal/http/request.go:358-379 | the bytes sent are the question's frame, whatever the buffer held |
| Requests.Request.GetVar | apisix-go-plugin-runner/internal/http/request.go:147-173 | a variable is asked for once, failed asks apart |
| Requests.Request.GetBody | apisix-go-plugin-runner/internal/http/request.go:175-190 | a body is asked for until one that is not empty came |
| Requests.Request.FetchChanges | apisix-go-plugin-runner/internal/http/request.go:207-336 | there is a rewrite exactly when a path was set or headers, arguments or response headers were looked at; it has exactly those parts, each a correct patch |
| Requests.ReuseUnobservable | apisix-go-plugin-runner/internal/http/request.go:192-205 | every run of operations on a recycled request returns, sends and reports what it does on a new one |
| Requests.RewriteReproduces | apisix-go-plugin-runner/internal/http/request.go:207-336 | for every message, recycled object and run: what is reported, told of the run's operations alone: the path set last, the arguments and the first header values as the run's edits leave them once the patch is applied to the message, the response headers it set, and each part exactly if the run touched it |
| Requests.VarAskedOnce | apisix-go-plugin-runner/internal/http/request.go:147-173 | after every run a variable is asked for in one ExtraInfo frame exactly if no answer for it came yet, and otherwise the first answer is given again |
| Requests.BodyAskedOnce | apisix-go-plugin-runner/internal/http/request.go:175-190 | the same for the body and its first answer that was not empty |
| Requests.ReadsBack | apisix-go-plugin-runner/internal/http/request.go:81-107 | after every run a plugin reads the path set last or else the message's, and first values as the edits leave them |
| Requests.ReadingReportsNothing | apisix-go-plugin-runner/internal/http/request.go:207-210 | looking without changing reports no entry |
| Responses.Response.EditHeader | apisix-go-plugin-runner/internal/http/response.go:121-136 | lazy decoding with a snapshot, then the edit of the live headers |
| Responses.Response.Clear | apisix-go-plugin-runner/internal/http/response.go:280-287 | what Reset clears and what it keeps |
| Responses.Response.AppendBody | apisix-go-plugin-runner/internal/http/response.go:138-144 | writes append, and an empty write makes a body |
| Responses.Response.SetStatus | apisix-go-plugin-runner/internal/http/response.go:193-200 | a written status stays |
| Responses.Response.GetBody | apisix-go-plugin-runner/internal/http/response.go:174-191 | the upstream body is asked for until one that is not empty came |
| Responses.Response.FetchChanges | apisix-go-plugin-runner/internal/http/response.go:210-274 | there is a rewrite exactly for a body, headers looked at, or a nonzero status; it has that body or none, the status as 16 bits, the id, and a correct header patch exactly if headers were looked at |
| Responses.ReuseUnobservable | apisix-go-plugin-runner/internal/http/response.go:280-305 | every run of operations on a recycled response returns, sends and reports what it does on a new one |
| Responses.RewriteReproduces | apisix-go-plugin-runner/internal/http/response.go:210-274 | for every upstream response, recycled object and run: what is reported, told of the run's operations alone: the body is all that was written, in order, the status the first nonzero one modulo 2^16 or 0, the first header values as the run's edits leave them; and a rewrite exactly when the run looked at a header, wrote or set a nonzero status |
| Responses.RunMeans | apisix-go-plugin-runner/internal/http/response.go:121-200 | what every run leaves of a response: body, status and headers as its operations say |
| Responses.VarAskedOnce | apisix-go-plugin-runner/internal/http/response.go:146-172 | after every run a variable is asked for exactly if no answer for it came yet, and otherwise the first answer is given again |
| Responses.BodyAskedOnce | apisix-go-plugin-runner/internal/http/response.go:174-191 | the same for the upstream's body and its first answer that was not empty |
| Responses.ReadsBack | apisix-go-plugin-runner/internal/http/response.go:114-136 | after every run a plugin reads the first status written or else the upstream's, and first header values as the edits leave them |
| Responses.FirstStatusStays | apisix-go-plugin-runner/internal/http/response.go:193-200 | the first nonzero status survives every run |
| Responses.ChangedIff | apisix-go-plugin-runner/internal/http/response.go:206-208 | a run leaves a response changed exactly when it looked at a header, wrote a body or a nonzero status |
| ReqResponses.ReqResponse.FetchChanges | apisix-go-plugin-runner/internal/http/req-response.go:72-131 | there is a stop message exactly for a body or a status, with all headers, 200 standing for no status |
| ReqResponses.ReqResponse.Write | apisix-go-plugin-runner/internal/http/req-response.go:43-51 | writes append, and an empty write is a change |
| ReqResponses.ReqResponse.WriteHeader | apisix-go-plugin-runner/internal/http/req-response.go:53-60 | the first nonzero status stays |
| ReqResponses.ReqResponse.Reset | apisix-go-plugin-runner/internal/http/req-response.go:62-66 | nothing of an earlier use is left |
| ReqResponses.StopHeadersRegroup | apisix-go-plugin-runner/internal/http/req-response.go:77-99 | the stop message's headers regroup to those the plugin set, value order kept |
| ReqResponses.RunIsTold | apisix-go-plugin-runner/internal/http/req-response.go:36-131 | for every run: a stop message exactly if something was written or a nonzero status set, with the first status modulo 2^16 or 200, all that was written, in order, and under each name the values left to it, in order |
| Snapshot.CountValues | apisix-go-plugin-runner/internal/http/request.go:117-120 | the number of all values, in any map order |
| Snapshot.PlaceCopy | apisix-go-plugin-runner/internal/http/request.go:124-126 | a whole copy in a range of its own, capped, the earlier copies untouched |
| Snapshot.CopyAll | apisix-go-plugin-runner/internal/http/request.go:123-127 | the second loop, in any map order |
| Snapshot.CloneUrlValues | apisix-go-plugin-runner/internal/http/request.go:116-129 | no copy is cut short; the clone is deeply equal and its slices own disjoint, capacity-limited ranges of one new array |
| Snapshot.ArgStore.OpenArgs | apisix-go-plugin-runner/internal/http/request.go:131-145 | live arguments and snapshot are both the decoded message |
| Snapshot.ArgStore.AddArg | apisix-go-plugin-runner/internal/http/request.go:138-142 | an append, in place or into a new array, adds to the live arguments and leaves the snapshot |
| Snapshot.ArgStore.SetArg | apisix-go-plugin-runner/internal/http/request.go:141-142 | a Set leaves the snapshot |
| Snapshot.ArgStore.DelArg | apisix-go-plugin-runner/internal/http/request.go:141-142 | a Del leaves the snapshot |
| Snapshot.ArgStore.WriteArg | apisix-go-plugin-runner/internal/http/request.go:141-142 | a write to one element in place changes that element of the live arguments and leaves the snapshot |
| Snapshot.ArgStore.AppendToSnapshot | apisix-go-plugin-runner/internal/http/request.go:125-125 | an append to a capped slice of the clone moves away instead of overwriting its neighbour |
| ConfCache.Cache.constructor | apisix-go-plugin-runner/internal/plugin/conf.go:53-67 | empty caches, counter 0 |
| ConfCache.Cache.Set | apisix-go-plugin-runner/internal/plugin/conf.go:69-128 | a live key gives its token and is refreshed alone; otherwise the next token, modulo 2^32, is put in both caches with the accepted entries; the key always leads to the token afterwards |
| ConfCache.Cache.Get | apisix-go-plugin-runner/internal/plugin/conf.go:134-140 | the entries under the token, refreshed |
| ConfCache.AcceptedIsSubsequence | apisix-go-plugin-runner/internal/plugin/conf.go:87-117 | what is kept is exactly the ordered subsequence with a registered plugin and a successful ParseConf |
| ConfCache.TokensDistinct | apisix-go-plugin-runner/internal/plugin/conf.go:119-120 | two mintings share a token exactly when a multiple of 2^32 lies between them; before the wrap tokens ascend |
| ConfCache.SetIsARun | apisix-go-plugin-runner/internal/plugin/conf.go:69-128 | a call of Set is a key hit, or a write to the token cache and then one to the key cache |
| ConfCache.StepKeepsInv | apisix-go-plugin-runner/internal/plugin/conf.go:69-140 | every step, with Gets and expiry between the two writes of a Set, keeps both caches in agreement |
| ConfCache.GetReturnsMinted | apisix-go-plugin-runner/internal/plugin/conf.go:134-140 | whatever Get finds is what the minting Set kept; a token touched less than a time to live ago is found |
| ConfCache.LiveKeySameToken | apisix-go-plugin-runner/internal/plugin/conf.go:73-79 | through every run a live non-empty key keeps its token |
| ConfCache.KeyAfterToken | apisix-go-plugin-runner/internal/plugin/conf.go:119-126 | a key that can be hit has a token minted for that key before, readable unless its time is up |
| ConfCache.TtlOutlives | apisix-go-plugin-runner/internal/server/server.go:161-175 | the runner's time to live is at least the expiry, and longer exactly from 5 seconds on |
| ConfCache.GetConfCacheTtl | apisix-go-plugin-runner/internal/server/server.go:161-175 | 4320 seconds when unset, 0 for what is no positive number, else six fifths cut to whole seconds |
| ConfCache.TokenGoodForExpiry | apisix-go-plugin-runner/internal/server/server.go:162-163 | with an expiry of 5 seconds or more a token is found until its expiry, in every timed run |
| ConfCache.TokenGoneAtExpiry | apisix-go-plugin-runner/internal/server/server.go:174-174 | below 5 seconds it can be gone at its last second |
| ConfCache.KeyOutlivesToken | apisix-go-plugin-runner/internal/plugin/conf.go:76-78 | a key hit can hand out a token that is gone |
| ConfCache.ReissuedTokenLostIff | apisix-go-plugin-runner/internal/plugin/conf.go:76-78 | when exactly a token handed out again can be missing within its expiry |
| Chain.Filter | apisix-go-plugin-runner/internal/plugin/plugin.go:112-130 | runs exactly the registered plugins up to the first that panics or leaves a change; the result is their fold |
| Chain.RanFirstUnique | apisix-go-plugin-runner/internal/plugin/plugin.go:112-130 | there is only one such way to run |
| Chain.Build | apisix-go-plugin-runner/internal/plugin/plugin.go:132-148 | stop if a response was left, else rewrite if anything was touched, else no action |
| Chain.HTTPReqCall | apisix-go-plugin-runner/internal/plugin/plugin.go:150-172 | the gateway is told of the world the fold ends in; an unknown token runs nothing; both objects go back reset on every path |
| Chain.HTTPRespCall | apisix-go-plugin-runner/internal/plugin/plugin.go:177-229 | the same for the response phase: a rewrite exactly if the fold ends with a body, headers looked at or a nonzero status, with that body and that status as 16 bits |
| Programs.GoesPastIff | apisix-go-plugin-runner/internal/plugin/plugin.go:112-130 | for plugins as programs of operations: a chain goes past a plugin that returned exactly when none of its operations makes a change |
| Programs.RespGoesPastIff | apisix-go-plugin-runner/internal/plugin/plugin.go:187-192 | in the response phase: exactly when it neither looked at a header nor wrote a body or a nonzero status |
| Programs.ReqGoesPastIff | apisix-go-plugin-runner/internal/plugin/plugin.go:122-127 | in the request phase: exactly when it wrote neither a body nor a nonzero status |
| Programs.ChainAlike | apisix-go-plugin-runner/internal/plugin/plugin.go:112-130 | chains on objects that no operation can tell apart run the same plugins to the same kind of end |
| Programs.ReqCallOnRecycled | apisix-go-plugin-runner/internal/plugin/plugin.go:150-172 | a request-phase call on recycled objects runs the same plugins and can be told of in the same words as on new ones |
| Programs.RespCallOnRecycled | apisix-go-plugin-runner/internal/plugin/plugin.go:211-229 | a response-phase call on a recycled object runs the same plugins and reports the same changes |
| Programs.FoldRuns | apisix-go-plugin-runner/internal/plugin/plugin.go:112-130 | a chain makes of its objects what the operations of its plugins make of them, one after the other |
| Programs.ReqCallTells | apisix-go-plugin-runner/internal/plugin/plugin.go:132-172 | what the gateway is told of a request-phase call tells of all operations of the plugins that ran: a stop for what they wrote, else a rewrite for what they did to the request, else nothing |
| Programs.RespCallTells | apisix-go-plugin-runner/internal/plugin/plugin.go:197-229 | what a response-phase call reports tells of all operations of the plugins that ran: everything written in order, the first status, the edits in order |
| RpcBatch.BatchIdentity | apisix-go-plugin-runner/cmd/go-runner/plugins/reqparser/confura/parser.go:45-76 | for every accepted request: cost is the number of messages, its record is safe to index, and errors rebuilt from it match the messages one by one, a list exactly for a list |
| RpcBatch.ReadDecompressedBody | apisix-go-plugin-runner/cmd/go-runner/plugins/resphandler/rpc_resp_handler.go:138-166 | the upstream body with its content encoding undone; status and new body untouched |
| RpcBatch.ResponseFilter | apisix-go-plugin-runner/cmd/go-runner/plugins/resphandler/rpc_resp_handler.go:53-103 | new status and body for every upstream status, body and stored record: below 400 the body is passed on, from 400 on it is replaced under 200 by one error of code -32001 per stored item, and nothing is written without a body or, from 400 on, a record |
| RpcBatch.RewrittenAnswers | apisix-go-plugin-runner/cmd/go-runner/plugins/resphandler/rpc_resp_handler.go:59-103 | the same of the new status and body as a function |
| RpcBatch.RpcSuccessCounts | apisix-go-plugin-runner/cmd/go-runner/plugins/resphandler/rpc_resp_handler.go:105-136 | the callback's value is the number of answers without an error under status 200, and 0 under any other |
| RpcStore.LoadedIsOwn | apisix-go-plugin-runner/cmd/go-runner/plugins/reqparser/confura/plugin.go:53-60 | in every interleaving with fresh ids the record under a request's id is its own, and is found exactly while it was saved and has not expired |
| RpcStore.NeverCrossesIff | apisix-go-plugin-runner/cmd/go-runner/plugins/reqparser/confura/plugin.go:53-57 | whatever the ids, requests find only their own records in every interleaving exactly when those that share an id have the same record; the code mints its ids, so sharing one takes a repeated uuid |
| RpcStore.FailedUpstream | apisix-go-plugin-runner/cmd/go-runner/plugins/resphandler/rpc_resp_handler.go:73-101 | across the phases, in every interleaving: a failed upstream is answered 200 with one error per message of that very request exactly when its body can be read and the record is still there, otherwise nothing is rewritten |
| RpcStore.SucceededUpstream | apisix-go-plugin-runner/cmd/go-runner/plugins/resphandler/rpc_resp_handler.go:65-72 | a response that succeeded upstream keeps its status and gets the body that was read |
| RpcBatch.SuccessWithinCost | apisix-go-plugin-runner/cmd/go-runner/plugins/resphandler/rpc_resp_handler.go:105-136 | no more successes than the cost booked when the upstream answers no more messages than asked; all of it exactly without errors |
| RpcBatch.RpcWithinCost | apisix-go-plugin-runner/cmd/go-runner/plugins/resphandler/rpc_resp_handler.go:105-136 | so settlements with this callback credit no more than the cost the parser booked |
| RpcBatch.DefaultRequestFilter | apisix-go-plugin-runner/cmd/go-runner/plugins/reqparser/types/types.go:31-56 | for a request that parses the headers of cost type, number of messages and fresh id, all others as they were; otherwise a 400 and the refusal are written, and then it panics |
| RpcBatch.ParseAndLabel | apisix-go-plugin-runner/cmd/go-runner/plugins/reqparser/types/types.go:32-43 | the closure: the body, and three headers if it parses |
| RpcBatch.RequestFilter | apisix-go-plugin-runner/cmd/go-runner/plugins/reqparser/confura/plugin.go:42-62 | exactly for a body that can be read and parses it returns: the cost count header is the number of messages, the cost type one of four by network and space, the id fresh, the server type by space, every other header and part of the request as it was; and the record is saved under the id, whether or not Redis took it |
| RpcBatch.EffectLabels | apisix-go-plugin-runner/cmd/go-runner/plugins/reqparser/confura/plugin.go:42-51 | the same of the plugin's effect as a function |
| RpcBatch.CarriesItsId | apisix-go-plugin-runner/cmd/go-runner/plugins/reqparser/types/types.go:38-40 | the id the request carries when its record is saved is the fresh one |
| RpcBatch.ParseErrorPanicsIff | apisix-go-plugin-runner/cmd/go-runner/plugins/reqparser/types/types.go:45-55 | when the parser's turn comes and the others do not panic, the call panics exactly when the body cannot be read or parsed; by then the 400 is in the response |
| Billing.RequestFilter | apisix-go-plugin-runner/cmd/go-runner/plugins/count/count.go:42-117 | the count plugin on its objects: the call it reads off the headers is booked, and a refusal is written as 400 with its text exactly if it is not admitted |
| Billing.ReadCall | apisix-go-plugin-runner/cmd/go-runner/plugins/count/count.go:44-65 | user, cost type, cost and id as the headers say; it parses if all three do |
| Billing.ResponseFilter | apisix-go-plugin-runner/cmd/go-runner/plugins/count/count.go:119-122 | the count plugin settles the request whose id the response carries, by the response's status |
| Billing.DetermineCount | apisix-go-plugin-runner/cmd/go-runner/plugins/resphandler/rpc_resp_handler.go:105-136 | settlement by the number of answers without an error in the body as it was read; what was read is kept |
| Billing.RpcResponseFilter | apisix-go-plugin-runner/cmd/go-runner/plugins/resphandler/rpc_resp_handler.go:53-103 | the JSON-RPC response plugin: settlement by the answers without an error, then the rewritten response, with the body kept from the one or asked for again |
| Billing.BooksItsMessages | apisix-go-plugin-runner/cmd/go-runner/plugins/reqparser/confura/plugin.go:42-51 | a request the parser labelled books, through those headers, its number of messages under its user, cost type and fresh id |
| Billing.MessagesAreBilled | apisix-go-plugin-runner/cmd/go-runner/plugins/count/count.go:86-202 | end to end: an admitted request that is answered and settled leaves `pending` as it was and adds to `count` the number of answers without an error, or, where settlement spells the key otherwise, exactly what then drifts |
| CallHandler.ActsAsChain | apisix-go-plugin-runner/internal/plugin/plugin.go:150-172 | the handler built from the plugins' programs, with Var and Body as questions on the connection, ends in the action its chain's fold ends in |
| CallHandler.AnswersMeetQuestions | apisix-go-plugin-runner/internal/http/request.go:349-401 | the j-th answer on the connection is given to the operation whose question was the j-th asked; answers beyond the last question change nothing |
| CallHandler.RecycledRunsAlike | apisix-go-plugin-runner/internal/plugin/plugin.go:150-156 | on recycled objects its chain runs the same plugins on the same answers, and the same can be told of the end |
| CallHandler.HandlerHalts | apisix-go-plugin-runner/internal/plugin/plugin.go:112-130 | it asks no more often than its longest rule has operations |
| CallHandler.ProgramIsParser | apisix-go-plugin-runner/cmd/go-runner/plugins/reqparser/confura/plugin.go:42-51 | the parser as a program has the effect of the plugin |
| CallHandler.ProgramLabels | apisix-go-plugin-runner/cmd/go-runner/plugins/reqparser/confura/plugin.go:42-51 | so the program returns exactly for a body that can be read and parses, and labels the request as the plugin does |
| CallHandler.HandlerPanicsIff | apisix-go-plugin-runner/cmd/go-runner/plugins/reqparser/types/types.go:45-55 | when the parser's turn comes, the handler ends in a panic exactly when the body cannot be read or parsed |
| CallHandler.NoReplyOnParseError | apisix-go-plugin-runner/cmd/go-runner/plugins/reqparser/types/types.go:45-55 | on the connection a reply can leave for the request exactly when its body parses; otherwise nothing follows |
| CallHandler.ReplyIsOfChain | apisix-go-plugin-runner/internal/plugin/plugin.go:150-172 | every reply to a request-phase call is the error for an unknown token, or tells of the world the chain ends in on the answers that came |
| Cleaner.OnlyExpiredDeleted | cleaner/core/mongodbc.go:76-108 | in any document order, with inserts, and deletions that fail at any point, only expired ids are deleted, and never the last expired one |
| Cleaner.FindOne | cleaner/core/mongodbc.go:88-97 | with `_id` order: the document after `skip` expired ones, none, or a failed query for a negative skip |
| Cleaner.CleanCollection | cleaner/core/mongodbc.go:87-108 | the loop ends with the newest of the expired documents and everything unexpired; full batches went: all of what was at most a batch is left, and else from one document to a batch |
| Cleaner.BatchDeleted | cleaner/core/mongodbc.go:102-106 | a turn deletes exactly a batch |
| Cleaner.ProgressIff | cleaner/core/mongodbc.go:88-106 | a turn makes progress exactly when the batch is not 0 |
| Cleaner.Clean | cleaner/core/mongodbc.go:59-116 | every collection whose name starts with http_logs_ is cleaned so, the others are not touched |
| BuilderPool.StepKeepsLinear | apisix-go-plugin-runner/internal/util/pool.go:32-39 | each step keeps every builder in the pool once, and reset, or with one holder |
| BuilderPool.BuildersLinear | apisix-go-plugin-runner/internal/server/server.go:98-157 | in every interleaving of connections GetBuilder hands out a builder that is reset and nobody else's |
| BuilderPool.ServerKeepsLinear | apisix-go-plugin-runner/internal/util/pool.go:26-39 | so it is in every run from an empty pool: no builder has two holders, or is both held and pooled |
| BuilderPool.GivenUpIff | apisix-go-plugin-runner/internal/http/request.go:175-190 | exactly when a builder leaves circulation |

## Left out

- The FlatBuffers byte layout: messages are records and sequences of entries. Of the builders only the
  back-to-front construction of vectors and their ownership are modelled.
- Redis, MongoDB and ttlcache internals: maps with atomic commands, and expiry as a step of the environment. In the
  caches an item never leaves before its time, it may leave at that very instant, and it may stay after it. The
  library's own comparison is not part of this model; TokenGoneAtExpiry rests on that one instant.
- Canonical spelling of header names by net/http: names stand for canonical ones.
- `Request.Context`, its timeout and cancellation; `SrcIP`, `Method`; the fields bound to a connection.
- Floating point: the factor 1.2 is 6/5 and the result is cut to whole seconds.
- JSON, compression, UUIDs and printing: parse results, printed strings and encodings are parameters. A JSON-RPC
  response list that holds null, which the success count dereferences, is not part of the model.
- Handlers in Session are functions of the request and the answers so far with a bound on their asks; plugins in
  Chain are functions on the values of the objects they are given, and the objects then take the result.
- Chain.HTTPReqCall: takes objects that come reset from their pools, and plugins that leave the request in a state
  its operations can reach; what Requests proves of those operations is why that is so.
- RpcBatch.ResponseFilter: takes records that the parser has stored, which BatchIdentity shows are safe to index;
  settlement, which the plugin does first, is in Billing.RpcResponseFilter.
- Billing.RequestFilter: the app id, which is stored with the record and which settlement passes over, is not modelled;
  the text of a refusal is a parameter.
- Programs.ReqCallTells, Programs.RespCallTells: asks are taken to leave four bytes in the header buffer, as the code's
  buffer always has.
- Requests.Request.Clear: does not model the cancellation of the request's context.
- Session.AskExtraInfo: the root of the answer is not decoded; its whole payload counts as the answer.
- CallHandler.ActsAsChain: how a call's message is read and its reply worded and written are parameters; the objects
  start as new ones, which RecycledRunsAlike shows is no loss.
- Cleaner.CleanCollection: requires that the batch is not 0 or nothing is expired, because otherwise the loop does
  not end; it takes deletions to succeed and nobody else to write. Failures and inserts are in OnlyExpiredDeleted.
- Cleaner.Clean: listing the collections is a parameter, and a collection is the set of its ids.
- The errors of a closed ttlcache in Set, SetInTest, and the registration of plugins: the registry is a parameter.
- Rate limiters, the rainbowapi parser's path table, authentication, the demo plugins, Lua, start-up, signals and
  logging.
