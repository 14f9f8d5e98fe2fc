# SupportPlane: a verified model of its client-side protocols

SupportPlane is a support cockpit for IT teams. This project models the parts of it in which
several steps, processes or functions have to fit together, and proves what they keep: the parser
of the Asterisk manager stream, the audit digest, the outbox worker, the GLPI session handshake,
the template installer, the endpoint agent, and the state behind the web panels.

`dafny verify dfyconfig.toml` checks everything.

## How the modules are organised

Each module models one source file or one layer of it.

| modules | models |
|---|---|
| `CrlfLines`, `AmiFraming`, `AmiBridge` | `scripts/asterisk_ami_bridge.js`: lines, blocks, headers and login |
| `JsonText`, `CanonicalJson`, `IntegrityHash` | `packages/audit/src/index.ts`: the JSON printer with a reader to check it by, the sorted property list, the hash |
| `OutboxWorker` | `apps/worker/src/index.ts` |
| `GlpiSession` | `packages/connectors/src/glpi-http-client.ts` |
| `PythonText`, `TemplateInstaller`, `InstallerPaths` | `scripts/init_template.py` |
| `EndpointAgent` | `apps/endpoint-agent/src/index.ts` |
| `CaseTimeline`, `SessionDetails`, `OutboxMonitor`, `ActionOutbox`, `AuditPager` | components of `apps/web` |
| `TermCascade` | `toneFor` in `ObservabilityPanel.tsx` and `normalizeGlpiPriority` in `glpi-adapter.ts` |
| `Strings`, `Permissions` | substring search and the panels' permission test, shared |

Code that changes state step by step is a class whose methods have the source's branches, in the
source's order. Each method is proved equal to one step of a function (`HandleAll`, `Apply`,
`PanelStep`, `Adopt`, `RegisterStep`, …), and the theorems are about that function over all inputs
and all runs. Parties that are not modelled (the NATS broker, the HTTP API, Asterisk, the order in
which callbacks come back) may do anything that the step functions allow.

## What turned out to be false, and what is true instead

Each entry names the exact condition and, where there is one, a concrete failing input.

- Block grouping depends on where the socket data is cut. `ChunkingTheorem` is the exact condition;
  `CutLoginIsMissed` is a login reply that one cut loses.
- Two payloads that differ only below the top level can have one digest, whatever the hash.
  `CanonicalMeaning` says exactly which differences survive, `NestedOnlyKeysAreInvisible` which do
  not; `NestedMemberIsInvisible` is the smallest case.
- A message can be acknowledged if and only if it parses (`SettlesIffParses`), and a message stops
  the worker that holds it if and only if it does not (`MalformedStopsTheWorker`).
- The Basic credentials are the API token if and only if it contains a colon (`CredentialsRoundTrip`).
- A registration outlasts a restart exactly under the condition of `RegistrationSticks`; with an
  empty token variable every start registers anew (`EmptyVariableRegistersAlways`), and
  `RegistersOnce` bounds the registrations in every case. An empty token from the server is used as
  one: `IdentityComesFirst` says exactly when the agent reports without a token.
- `adopt` is not atomic: `AdoptHalfDone` is the exact condition, `HalfDoneAdopt` a tree.
- Appending the README section also rewrites the line ends of the rest of the file, although the
  section is only meant to be added: `AppendKeepsText`, `AppendRewritesLineEnds`.
- `new --overwrite` without `--force-overwrite` tests collisions with shipped paths only; it still
  replaces managed files that are not shipped, and `--minimal` still deletes below `fixtures/`:
  `NewUnforcedOutcome`, `UnforcedNewLosesFiles`.
- The session details on the cockpit page may belong to another session. `DetailsMatchSelection` is
  the exact condition for every run; `WrongSessionShown` needs only two quick selections, and
  `TicketMovesSelectionBack` a slow ticket load, which also moves the selection.
- While a new session's timeline loads, and after it failed, the old one stays on screen:
  `PreviousTimelineStays` is exact for every run, `OldTimelineUnderNewSession` an example.
- The outbox monitor can show the attempts of another item than the selected one.
  `AttemptsMatchSelection` is the exact condition for every run, `AttemptsOfAnotherItem` an example.
- The audit explorer can show the rows of another filter or page than the current one, and its
  pager can be dead. `RowsMatchRequest` and `ControlsMeaning` are the exact conditions for every run;
  `StuckByLateAnswer` is a run in which an answer for an abandoned filter comes in last, and
  `StuckBehindTheEnd` one in which the result set shrinks to the offset. `WayBack` is the condition
  when the current page is on screen.
- The dry run of `new` does not announce what it copies: `NewDryRunSilence` says exactly which
  changes it keeps to itself.
- Every text that contains a good term is shown as a success, also `unhealthy`, `disconnected` and
  `inactive` (`ToneMeaning`, `DenialsReadAsSuccess`), and the priority `very high` becomes high
  (`VeryHighIsHigh`); `OnlyUnhealthyIsDead` and `OnlyVeryHighIsDead` name the terms without effect.

## Model

| member | source | states |
|---|---|---|
| CrlfLines.JoinSplit | scripts/asterisk_ami_bridge.js:158 | Splitting at CRLF loses nothing: the pieces joined again are the text, and no piece contains a CRLF. |
| CrlfLines.SplitJoin | scripts/asterisk_ami_bridge.js:158 | The converse: any list of CRLF-free pieces is recovered from its joined text, so the split is unique. |
| CrlfLines.FeedResumes | scripts/asterisk_ami_bridge.js:157-159 | Splitting the kept buffer plus new data gives the same further lines and the same new buffer as splitting everything received, for every cut, also between CR and LF. |
| CrlfLines.CompletedAt | scripts/asterisk_ami_bridge.js:157-159 | The lines completed within the first p characters are a prefix of all lines; their number is fixed by the offsets of the line ends alone. |
| AmiFraming.BlocksAppend | scripts/asterisk_ami_bridge.js:161-170 | Grouping two batches of lines separately equals grouping them together unless the boundary lies between two non-empty lines, and then there is exactly one block too many. |
| AmiFraming.HandledConservesLines | scripts/asterisk_ami_bridge.js:157-170 | Under every chunking the lines of all handled blocks, concatenated, are exactly the non-empty completed lines of the stream in order; no block is empty or contains an empty line. |
| AmiFraming.ChunkingTheorem | scripts/asterisk_ami_bridge.js:156-171 | The handled blocks equal the blocks of the whole stream if and only if no cut falls at or behind the CRLF of one header line and before the CRLF of the next one of the same block; otherwise there are strictly more blocks. |
| AmiFraming.WireRoundTrip | scripts/asterisk_ami_bridge.js:152-171 | Blocks written as CRLF lines with an empty line after each come back unchanged under exactly those cuttings that stay out of the blocks. |
| AmiBridge.HeaderRoundTrip | scripts/asterisk_ami_bridge.js:186-188 | A header written `key: value` is read back as that key and value exactly when the key is non-empty and does not contain the separator. |
| AmiBridge.ParseKeepsLastValue | scripts/asterisk_ami_bridge.js:184-190 | Parsing keeps, for every key, the value of the last header line with this key, and has no other keys. |
| AmiBridge.RawEvent | scripts/asterisk_ami_bridge.js:95-99 | The `rawEvent` of a posted event has, for every key but `Secret` and `LocalTestEvent`, the value of the last line with that key and no other keys; the secret is redacted and the mark is set. |
| AmiBridge.NormalizedEvent | scripts/asterisk_ami_bridge.js:81-94 | From the headers of the block alone: the event type is that of the block, the caller its CallerIDNum, else its CallerID, else the constant; the id its Uniqueid, else its Linkedid, else a generated one; the callee its Exten, else its DNID, else none. |
| AmiBridge.BlockKinds | scripts/asterisk_ami_bridge.js:192-207 | From the headers of the block alone: when it accepts the login, when it refuses it, and that it is posted exactly if it does neither and is a Newchannel, Newstate or Hangup event. |
| AmiBridge.MessageMeaning | scripts/asterisk_ami_bridge.js:199-201 | The message of a refusal is the value of the block's last Message header. |
| AmiBridge.ForwardingMeaning | scripts/asterisk_ami_bridge.js:205-212 | Over any sequence of blocks, exactly the Newchannel, Newstate and Hangup events that are not login answers are posted, in order, each with its Secret redacted. |
| AmiBridge.LoginMeaning | scripts/asterisk_ami_bridge.js:192-203 | The login flag is set exactly when some block accepted the login, and the promise stays open exactly while no block accepted or refused it. |
| AmiBridge.FirstDecisionCounts | scripts/asterisk_ami_bridge.js:192-203 | The first block that accepts or refuses settles the promise for good: resolved, or rejected with that block's message. |
| AmiBridge.ResolvedMeansLoggedIn | scripts/asterisk_ami_bridge.js:192-197 | Whenever the promise is resolved the login flag is set. |
| AmiBridge.ConnectionIgnoresChunking | scripts/asterisk_ami_bridge.js:156-214 | With no cut inside a block the whole connection (flag, promise, posted events) is as if everything had arrived in one event. |
| AmiBridge.CutLoginIsMissed | scripts/asterisk_ami_bridge.js:156-203 | Counterexample: the same bytes log in when they arrive together and change nothing at all when one event ends between the two headers of the reply. |
| AmiBridge.AmiConnection.constructor | scripts/asterisk_ami_bridge.js:146-147 | A new connection has seen no data. |
| AmiBridge.AmiConnection.OnData | scripts/asterisk_ami_bridge.js:156-171 | After a data event the buffer is the open tail of everything received and the state is what handling all blocks of all events gives. |
| AmiBridge.AmiConnection.HandleLines | scripts/asterisk_ami_bridge.js:161-170 | The outer loop handles exactly the blocks of the queued lines, in order. |
| AmiBridge.AmiConnection.NextBlock | scripts/asterisk_ami_bridge.js:162-168 | The inner loop takes off the first block, or an empty one at an empty line, and leaves the blocks of the rest. |
| AmiBridge.AmiConnection.HandleAmiBlock | scripts/asterisk_ami_bridge.js:183-214 | Handling one block changes the login flag, the promise and the posted events as the block function says. |
| AmiBridge.AmiConnection.OnClose | scripts/asterisk_ami_bridge.js:173-176 | After the socket closes an open promise is rejected as closed before the login; an earlier settlement stands; resolved means logged in. |
| JsonText.ReadPrint | packages/audit/src/index.ts:15 | A reader of JSON text, written from the grammar, gets every value back from its printed form, whatever delimited text follows, and leaves that text (strings with all escapes and lone surrogates, integers, arrays, objects). |
| JsonText.ShortestString | packages/audit/src/index.ts:15 | No text that reads as a string is shorter than the printed form of this string, so nothing is escaped without need. |
| JsonText.PrintUnambiguous | packages/audit/src/index.ts:15 | No two JSON values print alike, whatever delimited text follows. |
| CanonicalJson.SortedUnique | packages/audit/src/index.ts:15 | Two strictly sorted key lists with the same keys are equal, so the order of the property list does not depend on insertion order. |
| CanonicalJson.SelectMatchesView | packages/audit/src/index.ts:15 | Filtering and ordering by a sorted property list identifies exactly the values that are equal as unordered trees after dropping unlisted names at every depth. |
| CanonicalJson.CanonicalMeaning | packages/audit/src/index.ts:15 | Two object payloads have the same canonical string if and only if they are equal as unordered objects once members whose names are not top-level keys are dropped at every depth. |
| CanonicalJson.ViewOfFields | packages/audit/src/index.ts:15 | What is kept of an object: a member for exactly those fields whose names are kept and whose values are not `undefined`, each with what is kept of its value. |
| CanonicalJson.CanonicalReadsBack | packages/audit/src/index.ts:15 | The canonical string is JSON text that reads as the payload without the members whose names are not top-level keys, with the members of every object, at every depth, in increasing code-unit order. |
| CanonicalJson.SampleText | packages/audit/src/index.ts:15 | The canonical string of one literal payload. |
| CanonicalJson.KeyOrderInvariance | packages/audit/src/index.ts:15 | Insertion order of keys, at any depth, never reaches the canonical string. |
| CanonicalJson.NestedOnlyKeysAreInvisible | packages/audit/src/index.ts:15 | Dropping every member whose name is not a top-level key, at every depth and in every position, leaves the canonical string as it is. |
| CanonicalJson.NestedMemberIsInvisible | packages/audit/src/index.ts:15 | Witness: the last member of one nested object can hold anything without changing the canonical string, when its name is not that of the one top-level member. |
| IntegrityHash.ToInt32 | packages/audit/src/index.ts:19-20 | The result lies in the signed 32-bit range and is congruent to the argument modulo 2^32. |
| IntegrityHash.RoundIsHorner | packages/audit/src/index.ts:18-20 | One round of shift, subtract, add and truncate is one Horner step for 31 modulo 2^32. |
| IntegrityHash.PolyConcat | packages/audit/src/index.ts:16-21 | Composition: H(a+b) = H(a)·31^length(b) + H(b). |
| IntegrityHash.DigestShape | packages/audit/src/index.ts:22 | The digest is `h` and exactly eight hex digits that spell the magnitude of the hash, also for the most negative hash. |
| IntegrityHash.DigestCollision | packages/audit/src/index.ts:16-22 | Two texts share a digest if and only if their polynomials agree up to sign modulo 2^32. |
| IntegrityHash.DigestIgnoresKeyOrder | packages/audit/src/index.ts:14-23 | Payloads equal up to insertion order at any depth have the same digest. |
| IntegrityHash.SampleDigest | packages/audit/src/index.ts:14-23 | The digest of that payload, digit by digit. |
| IntegrityHash.ComputeIntegrityHash | packages/audit/src/index.ts:14-23 | The loop over 32-bit values computes the digest of the polynomial of the canonical text, reduced once. |
| OutboxWorker.IterationProgress | apps/worker/src/index.ts:181-217 | At every point of an iteration all delivered messages but the one in hand have been acknowledged, in order; a poll has happened exactly if the iteration is over and delivered nothing. |
| OutboxWorker.EitherMessagesOrOneFallback | apps/worker/src/index.ts:181-217 | Any sequence of actions that leads from the fetch back to the loop head acknowledges every message handed over and makes no fallback call, or was handed none and makes exactly one. |
| OutboxWorker.HeldUntilAckOrCrash | apps/worker/src/index.ts:183-209 | After a delivery a worker does nothing but process that message until it acknowledges it or dies; a shutdown cannot come between. |
| OutboxWorker.EveryWorkerRunsTheLoop | apps/worker/src/index.ts:134-222 | In every run of the whole system each worker's own history is a run of the loop automaton that ends in the worker's state. |
| OutboxWorker.IterationsOfEveryWorker | apps/worker/src/index.ts:180-218 | In every run of the system, every iteration that a worker has just completed acknowledges each message it was handed and makes no fallback call, or was handed none and makes exactly one. |
| OutboxWorker.RunKeepsInv | apps/worker/src/index.ts:180-209 | In every run: pending messages were published, every published message that is no longer pending was acknowledged by a worker, and every acknowledgement sent was earned by an earlier successful process call or carried no item. |
| OutboxWorker.AckedWasProcessed | apps/worker/src/index.ts:185-209 | When the broker takes an acknowledgement, the message carried no item or some worker had a successful process call for its item and acknowledged it afterwards, for any number of workers, crashes, restarts, failing calls and redelivery. |
| OutboxWorker.PendingOrProcessed | apps/worker/src/index.ts:185-209 | No message is lost: each is still pending, carried no item, or was processed; one that does not parse stays pending for ever. |
| OutboxWorker.SettlesIffParses | apps/worker/src/index.ts:191-209 | There is a run in which a published message is no longer pending if and only if the message parses. |
| OutboxWorker.MalformedStopsTheWorker | apps/worker/src/index.ts:189-209 | In every run, a worker with a message in hand can do nothing but die if and only if the message does not parse. |
| OutboxWorker.QuietStepDecreases | apps/worker/src/index.ts:180-218 | Without failures, new messages, redelivery, fallback or shutdown every step of the system decreases a measure. |
| OutboxWorker.QuietRunsEnd | apps/worker/src/index.ts:180-218 | A run without failures, new messages, redelivery, fallback or shutdown has at most `Measure` steps. |
| OutboxWorker.QuietEnd | apps/worker/src/index.ts:180-218 | No such step is left exactly when every worker is about to poll, was stopped, or holds a message that does not parse, and the broker has taken every acknowledgement sent. |
| OutboxWorker.PollMeansEmpty | apps/worker/src/index.ts:180-218 | If fetches do not run out empty while a message is available, a worker in such a run polls only when no message is available. |
| OutboxWorker.QuietQueueEmpties | apps/worker/src/index.ts:180-218 | Where such a run can go no further with a worker left to poll, every message still pending does not parse and is stuck with a worker. |
| OutboxWorker.NatsWorker.constructor | apps/worker/src/index.ts:134-136 | A new worker stands at the head of its loop. |
| OutboxWorker.NatsWorker.Do | apps/worker/src/index.ts:180-218 | One action extends the history, which stays a run of the automaton. |
| OutboxWorker.NatsWorker.Handle | apps/worker/src/index.ts:183-210 | One message: the worker survives exactly if the message carried no item or its process call succeeded, and then has acknowledged it; otherwise it has not. |
| OutboxWorker.NatsWorker.HandleBatch | apps/worker/src/index.ts:183-210 | A batch: everything before the first message that stops the worker is acknowledged, nothing from there on is. |
| OutboxWorker.NatsWorker.FinishTurn | apps/worker/src/index.ts:211-217 | After the batch the worker goes on exactly if the batch did not break off and was not empty or the poll succeeded; it polls exactly once after an empty one. |
| OutboxWorker.NatsWorker.OneTurn | apps/worker/src/index.ts:181-217 | One pass survives exactly if every message of the batch does, the batch does not break off, and an empty batch is followed by a successful poll; what has been delivered, acknowledged and polled is stated for both outcomes. |
| OutboxWorker.NatsWorker.Rounds | apps/worker/src/index.ts:180-218 | The loop completes exactly the rounds before the first stop or the first round that is not good. |
| OutboxWorker.NatsWorker.LoopNats | apps/worker/src/index.ts:180-218 | The loop exits exactly at the first stop, dies exactly in the first round that is not good and comes before it, and has acknowledged exactly what the completed rounds and the part of a fatal one give. |
| GlpiSession.SplitColonMeaning | packages/connectors/src/glpi-http-client.ts:71-73 | Splitting at colons and joining gives the token back; the first part has no colon; there is one part exactly if the token has no colon. |
| GlpiSession.CredentialsRoundTrip | packages/connectors/src/glpi-http-client.ts:71-83 | The Basic credentials are the API token itself if and only if it contains a colon, the user name ending at the first one (RFC 7617 section 2); otherwise a colon is appended. |
| GlpiSession.RunKeepsInv | packages/connectors/src/glpi-http-client.ts:77-157 | In every interleaving `initSession` is first on the wire and there once, all later traffic carries the one stored non-empty token, and nothing follows unless the handshake succeeded. |
| GlpiSession.AtMostOneHandshake | packages/connectors/src/glpi-http-client.ts:113-135 | At most one `initSession` is ever sent per client, and every data request is sent after it with the stored, non-empty token. |
| GlpiSession.OneDataPerRequest | packages/connectors/src/glpi-http-client.ts:121-157 | Each request is sent at most once and nothing is sent for nobody; a request completes exactly on its own good answer, after it was sent, and fails only on its own bad answer or with the handshake. |
| GlpiSession.HandshakeFollowsAnswer | packages/connectors/src/glpi-http-client.ts:77-122 | In every run the handshake is fulfilled with the token t exactly after a body with the non-empty token t, rejected exactly after any other answer, and not started exactly before the first call; there is one request per call. |
| GlpiSession.ResumedRequestsAreSent | packages/connectors/src/glpi-http-client.ts:121-135 | After a body with the non-empty token t every resumed request has been sent with t, and fails only by its own bad answer. |
| GlpiSession.FailureIsSticky | packages/connectors/src/glpi-http-client.ts:113-122 | After a failed handshake nothing is ever sent again and every request that resumes fails. |
| GlpiSession.NothingStuck | packages/connectors/src/glpi-http-client.ts:113-122 | A waiting request can go on unless the handshake is in flight, and then any answer to it can be taken. |
| GlpiSession.FetchGlpiHttpClient.constructor | packages/connectors/src/glpi-http-client.ts:69-75 | The parts of the token become user name and password; no session and no handshake yet. |
| GlpiSession.FetchGlpiHttpClient.InitSession | packages/connectors/src/glpi-http-client.ts:77-91 | Sends the credentials of the API token. |
| GlpiSession.FetchGlpiHttpClient.Request | packages/connectors/src/glpi-http-client.ts:113-122 | A new request starts a handshake only if there is neither a token nor a handshake. |
| GlpiSession.FetchGlpiHttpClient.InitSettles | packages/connectors/src/glpi-http-client.ts:94-110 | An answer with a non-empty token fulfils the handshake; an error or an empty token rejects it. |
| GlpiSession.FetchGlpiHttpClient.ContinueRequest | packages/connectors/src/glpi-http-client.ts:121-135 | A request goes out with the stored token, or fails with the handshake. |
| PythonText.StripAfterReading | scripts/init_template.py:1157-1164 | Reading with universal newlines and then stripping equals stripping the raw text when that has no carriage return. |
| PythonText.LineEndsReadAlike | scripts/init_template.py:856-857 | Each of the three line ends is read as one newline. |
| TemplateInstaller.AdoptOutcome | scripts/init_template.py:1423-1438 | A real adopt, from the original tree alone: which refusal applies with which paths, and for every path whether it exists afterwards and with what content. |
| TemplateInstaller.RefusalNames | scripts/init_template.py:1059-1140 | The refusals name exactly the assets that are there, and exactly the managed files that are there and may not be replaced: all without --overwrite, the protected ones without --force-overwrite. |
| TemplateInstaller.ExistingInOrder | scripts/init_template.py:1061-1067 | The existing paths are listed in the order of the list. |
| TemplateInstaller.ConflictsInOrder | scripts/init_template.py:1116-1131 | So are the managed files in the way. |
| TemplateInstaller.AssetPlanInOrder | scripts/init_template.py:1061-1069 | So are the planned asset actions. |
| TemplateInstaller.WritePlanInOrder | scripts/init_template.py:1144-1145 | So are the planned writes. |
| TemplateInstaller.AdoptKeepsFiles | scripts/init_template.py:1073-1164 | Without --force-overwrite, on success or refusal, every existing file keeps its content except README.md under --readme-link and, under --overwrite, the managed paths missing from the protected list. |
| TemplateInstaller.AdoptHalfDone | scripts/init_template.py:1423-1436 | Adopt refuses and yet leaves a changed tree if and only if it is a real unforced run, no asset is in the way and a managed file is. |
| TemplateInstaller.DryRunPredictsRefusal | scripts/init_template.py:1365-1442 | A dry run changes nothing and refuses exactly as the real run does, with the same paths, although the real second phase sees a tree changed by the first. |
| TemplateInstaller.DryRunPredictsWrites | scripts/init_template.py:1091-1146 | The report of a dry run names exactly the paths the real run writes: `create` new assets, `overwrite` existing ones; every other path is untouched. |
| TemplateInstaller.AppendIdempotent | scripts/init_template.py:1152-1164 | Appending the README section twice is the same as once. |
| TemplateInstaller.AppendKeepsText | scripts/init_template.py:1152-1164 | With the section there the file is left alone; else the text as read, without trailing white space, is followed by exactly an empty line, the section and a line end. The raw text is kept if and only if nothing is appended or it has no carriage return. |
| TemplateInstaller.AppendRewritesLineEnds | scripts/init_template.py:1152-1164 | Witness: a README with one Windows line end has a plain one after the append. |
| TemplateInstaller.NewDryRun | scripts/init_template.py:1376-1397 | A refused `new` and every dry run leave the tree alone, and the dry run refuses exactly as the real run. |
| TemplateInstaller.NewDryRunReport | scripts/init_template.py:1142-1171 | The report of a dry run of `new` lists the managed paths in order and, with --minimal, the cleanup. |
| TemplateInstaller.NewDryRunSilence | scripts/init_template.py:1043-1049 | The dry run of `new` keeps silent about a change if and only if the target lies elsewhere and the template ships the path with another content than the target has, the path being neither managed nor cleaned up. |
| TemplateInstaller.NewRefuses | scripts/init_template.py:1010-1041 | `new` refuses if and only if force lacks overwrite, the target is nested in the template, or a non-empty target elsewhere is not to be overwritten or, unforced, has a file the template ships; with which of the four refusals, and that a collision names exactly the shared files. |
| TemplateInstaller.NewOutcome | scripts/init_template.py:1376-1393 | The complete outcome of a `new` that goes through: for every path whether it exists afterwards and whether its content is rendered, shipped or old. |
| TemplateInstaller.NewUnforcedOutcome | scripts/init_template.py:1010-1049 | What --overwrite without --force-overwrite does to each file already there: kept unless it is managed (replaced) or cleaned by --minimal (deleted); none of them is shipped. |
| TemplateInstaller.Target.constructor | scripts/init_template.py:1374 | A target is its tree, with nothing reported yet. |
| TemplateInstaller.Target.PlanAssetActions | scripts/init_template.py:1052-1070 | The loop lists the actions and, unless forced, the existing paths. |
| TemplateInstaller.Target.CopyAssets | scripts/init_template.py:1073-1104 | The asset phase: refuses before the first write, reports, or writes all. |
| TemplateInstaller.Target.WriteFiles | scripts/init_template.py:1100-1104 | The write loop leaves the tree with all listed paths written. |
| TemplateInstaller.Target.FindManagedConflicts | scripts/init_template.py:1115-1131 | The conflict loop lists the managed paths that exist and may not be replaced. |
| TemplateInstaller.Target.ReportWrites | scripts/init_template.py:1142-1146 | The report loop adds one write line per path, in order. |
| TemplateInstaller.Target.ApplyManagedFiles | scripts/init_template.py:1107-1149 | The managed-file phase: refuses before the first write, reports, or writes all. |
| TemplateInstaller.Target.MaybeAppendReadmeLink | scripts/init_template.py:1152-1164 | The README phase: nothing without a README or when the section is there; else reports or appends. |
| TemplateInstaller.Target.RunAdopt | scripts/init_template.py:1365-1438 | The phases of adopt in their order, stopping at the first refusal. |
| TemplateInstaller.Target.CopyTemplateTree | scripts/init_template.py:1010-1049 | The three refusals of the template copy, and otherwise the merged tree. |
| TemplateInstaller.Target.RunNew | scripts/init_template.py:1365-1393 | The phases of `new` in their order. |
| TemplateInstaller.Target.MinimalCleanup | scripts/init_template.py:1167-1174 | Removes what lies under fixtures/ and the quality document, or reports it. |
| InstallerPaths.NoPathTwice | scripts/init_template.py:24-44 | The script's own lists are disjoint: support assets from GitHub assets, both from the managed paths and the README, and protected from other managed paths. |
| InstallerPaths.ScriptAdopt | scripts/init_template.py:1415-1438 | The guarantees of adopt with the script's lists: exact dry run, and an unforced run spares every file but README.md and the two unprotected managed paths. |
| InstallerPaths.HalfDoneAdopt | scripts/init_template.py:1423-1436 | Witness: in a tree with AGENTS.md only, adopt without flags refuses after copying the support assets. |
| InstallerPaths.UnforcedNewLosesFiles | scripts/init_template.py:1376-1393 | Witness: an unforced `new --overwrite --minimal` replaces an AGENTS.md and deletes a file under fixtures/, neither of which the template ships. |
| InstallerPaths.RunScript | scripts/init_template.py:1365-1438 | Either command, with the script's lists, leaves the tree its function gives. |
| EndpointAgent.Precedence | apps/endpoint-agent/src/index.ts:16-33 | Each setting comes from its environment variable if that is set, else from the file, else from its default. |
| EndpointAgent.SavedConfigReloads | apps/endpoint-agent/src/index.ts:16-38 | A saved config is loaded back unchanged under the same environment, whatever the host is then called, unless the environment sets the token. |
| EndpointAgent.RegistrationKeepsSettings | apps/endpoint-agent/src/index.ts:58-82 | A start registers exactly if it has no token, goes on with its settings and the token granted, and the next start loads these; what is in the file and what is lost after each kind of failure. |
| EndpointAgent.RegistrationSticks | apps/endpoint-agent/src/index.ts:58-82 | A saved registration keeps the next start from registering again if and only if the token is not empty and the environment does not set the token to the empty string. |
| EndpointAgent.RegistersOnce | apps/endpoint-agent/src/index.ts:16-82 | Over any number of starts, failures and answers: at most one registration granted is of use, and then no start registers again; all others were lost before they were in the file or saved without giving the next start a token, and the latter, unless the token variable is empty, are no more than the empty tokens answered. |
| EndpointAgent.EmptyVariableRegistersAlways | apps/endpoint-agent/src/index.ts:32-59 | With the token variable set to the empty string every start registers anew. |
| EndpointAgent.ReportProtocol | apps/endpoint-agent/src/index.ts:97-131 | A well-formed command is reported once or twice, always under its own id and nonce, with the status and error code that the diagnostic gives; twice exactly if the first report's post threw, and then as failed; anything else is never reported. |
| EndpointAgent.CommandOutcome | apps/endpoint-agent/src/index.ts:97-131 | A round claims first; a snapshot comes next, exactly for a diagnostic that is no remediation; nothing else but reports is posted, and success only after the snapshot got through; the round has run exactly if its last report got through. |
| EndpointAgent.IdentityComesFirst | apps/endpoint-agent/src/index.ts:133-137 | Nothing but the heartbeat and, if that gets through, the posts of the command follows a registration that returned; they carry the token it returned, which is empty exactly if the config had none and the answer was empty. |
| EndpointAgent.Agent.constructor | apps/endpoint-agent/src/index.ts:16-20 | An agent starts from whatever its config file holds. |
| EndpointAgent.Agent.DoRegister | apps/endpoint-agent/src/index.ts:58-82 | Registration changes the file, posts and returns as the step function says, for every outcome of post and save. |
| EndpointAgent.Agent.ClaimAndRun | apps/endpoint-agent/src/index.ts:97-131 | The try/catch sequence sends exactly the posts of the protocol function and ends as it says. |
| EndpointAgent.Agent.RunOnce | apps/endpoint-agent/src/index.ts:133-137 | One round: the registration's posts, then heartbeat, then the command's posts, cut off at the first failure. |
| CaseTimeline.RunKeepsInv | apps/web/components/CaseTimelinePanel.tsx:22-45 | In every run all requests but the current session's last one are cancelled, and loading, error and timeline are those of that request. |
| CaseTimeline.RequestsFollowHistory | apps/web/components/CaseTimelinePanel.tsx:22-45 | In every run there is one request per session shown, for that session, with the outcome of its own answer, over exactly after its own end; and the session is the one shown last. |
| CaseTimeline.OneLiveRequest | apps/web/components/CaseTimelinePanel.tsx:22-45 | At most one request is not cancelled, and it is for the session on screen. |
| CaseTimeline.TimelineBelongsToSession | apps/web/components/CaseTimelinePanel.tsx:22-45 | With a session selected, loading over and no error, the timeline is the answer to that session's own request. |
| CaseTimeline.LateAnswersAreIgnored | apps/web/components/CaseTimelinePanel.tsx:32-44 | A callback of a request that has been left changes nothing on screen. |
| CaseTimeline.PreviousTimelineStays | apps/web/components/CaseTimelinePanel.tsx:22-45 | In every run, from the last switch to a session on, the timeline is that of before the switch while the session's own request is unanswered or failed, and the request's items once it is answered. |
| CaseTimeline.OldTimelineUnderNewSession | apps/web/components/CaseTimelinePanel.tsx:22-45 | Witness: with everything over and the new session's request failed, the other session's timeline is still shown. |
| CaseTimeline.NoSessionFreezes | apps/web/components/CaseTimelinePanel.tsx:22-45 | Without a session the timeline is empty and the loading and error marks stay as they were left, whatever comes in. |
| CaseTimeline.Panel.constructor | apps/web/components/CaseTimelinePanel.tsx:18-20 | The panel starts without session, timeline or requests. |
| CaseTimeline.Panel.ShowSession | apps/web/components/CaseTimelinePanel.tsx:22-44 | The cleanup cancels the previous request; then the effect clears the timeline or starts a request. |
| CaseTimeline.Panel.OnAnswer | apps/web/components/CaseTimelinePanel.tsx:32-38 | An answer writes timeline or error unless its request was cancelled. |
| CaseTimeline.Panel.OnFinally | apps/web/components/CaseTimelinePanel.tsx:39-41 | The end of a request clears loading unless it was cancelled. |
| SessionDetails.LastWriteDecides | apps/web/app/page.tsx:261-280 | The details on screen are those of the last event that wrote them: none after a selection, that fetch's after a successful answer. |
| SessionDetails.DetailsMatchSelection | apps/web/app/page.tsx:261-547 | In every run of selections, ticket loads, other operations and answers in any order, the details belong to the selected session if and only if the last event that wrote them is a successful answer to a fetch for the session chosen last. |
| SessionDetails.OwnDetailsShown | apps/web/app/page.tsx:261-347 | After the last click on a session the page shows the answer to that click's own fetch if and only if this fetch succeeded and no other fetch succeeded later. |
| SessionDetails.FetchesFollowHandlers | apps/web/app/page.tsx:261-547 | In every run each selection, returning ticket load and returning operation starts one fetch, in order, for the session selected, or the one that was selected when the load or operation was started. |
| SessionDetails.FetchesSettleOnce | apps/web/app/page.tsx:265-279 | A fetch has succeeded or failed exactly after its own answer or failure. |
| SessionDetails.LoadingMeaning | apps/web/app/page.tsx:262-279 | In every run loading shows exactly if the last start, answer or failure of any fetch is a start. |
| SessionDetails.WrongSessionShown | apps/web/app/page.tsx:261-347 | Counterexample: two selections answered in reverse order end with the first session's details under the second, nothing outstanding. |
| SessionDetails.SelectionOwner | apps/web/app/page.tsx:332-411 | The selected session is the one chosen last, by a selection or by a returning ticket load, which chooses the session it was started for. |
| SessionDetails.TicketMovesSelectionBack | apps/web/app/page.tsx:401-420 | Witness: a ticket load that returns after the user moved on selects the old session again and keeps the details of the other one; when the fetches for the old session fail, these stay, with nothing outstanding. |
| SessionDetails.Cockpit.constructor | apps/web/app/page.tsx:261-280 | The page starts with nothing selected. |
| SessionDetails.Cockpit.FetchSessionDetails | apps/web/app/page.tsx:261-269 | Starts loading and sends one fetch. |
| SessionDetails.Cockpit.DetailsArrive | apps/web/app/page.tsx:270-279 | A success replaces the details, without any test which session is selected; loading ends. |
| SessionDetails.Cockpit.HandleSelectSession | apps/web/app/page.tsx:332-347 | Selects, clears the details and fetches. |
| SessionDetails.Cockpit.HandleLoadTicket | apps/web/app/page.tsx:401-407 | Starts a load for the selected session, or does nothing. |
| SessionDetails.Cockpit.TicketArrives | apps/web/app/page.tsx:408-411 | Selects the load's session and fetches its details. |
| SessionDetails.Cockpit.HandleWork | apps/web/app/page.tsx:428-434 | Any other operation of the page starts for the selected session, or does nothing. |
| SessionDetails.Cockpit.WorkReturns | apps/web/app/page.tsx:435-436 | It ends with a fetch for the session it was started for, whatever is selected then. |
| OutboxMonitor.FinalItemsEnableNothing | apps/web/components/OutboxMonitorPanel.tsx:266-318 | The statuses that enable no operation are exactly mock-delivered, sandbox-delivered and cancelled. |
| OutboxMonitor.ButtonsMatchServer | apps/api/src/actions/actions.service.ts:425-510 | Permission and status for each operation are exactly those the server accepts, but for claiming an item again that is under processing. |
| OutboxMonitor.EnabledMatchesServer | apps/web/components/OutboxMonitorPanel.tsx:266-318 | A button is enabled exactly when no operation is under way and the server would accept the call for the selected item as shown. |
| OutboxMonitor.RunKeepsInv | apps/web/components/OutboxMonitorPanel.tsx:53-99 | In every run the ref and the state agree on a selection from the list on screen, only the newest operation can be under way, the lock is held exactly while it is, and a call that is out was permitted and is the one the lock names. |
| OutboxMonitor.OneOperationAtATime | apps/web/components/OutboxMonitorPanel.tsx:84-99 | At most one operation is between its call and the end of its refresh and notification, and meanwhile no button is enabled. |
| OutboxMonitor.CallsAreForSelected | apps/web/components/OutboxMonitorPanel.tsx:266-318 | In every run there is one call per press, in order, each for the operation pressed and the item that was selected, on the list on screen and in a status the server accepts when it was pressed. |
| OutboxMonitor.OperationsFollowEvents | apps/web/components/OutboxMonitorPanel.tsx:84-99 | In every run each operation goes through call, refresh and notification, each ending with its own event only, or ends with its failed call. |
| OutboxMonitor.RefreshesFollowEvents | apps/web/components/OutboxMonitorPanel.tsx:53-78 | In every run there is one refresh per start and per successful call and one answer due per click, each over exactly after its own answers or failure. |
| OutboxMonitor.ListIsTheLast | apps/web/components/OutboxMonitorPanel.tsx:57-58 | The list on screen is the last one that arrived. |
| OutboxMonitor.ClickSurvivesRefreshes | apps/web/components/OutboxMonitorPanel.tsx:53-78 | A clicked item stays selected through any events, also refreshes under way at the click, while every list that arrives contains it and nothing else is clicked. |
| OutboxMonitor.LostSelectionFallsToFirst | apps/web/components/OutboxMonitorPanel.tsx:61-66 | A list without the selected item moves the selection to its first item, and only an empty list clears it. |
| OutboxMonitor.AttemptsFollowSelection | apps/web/components/OutboxMonitorPanel.tsx:61-69 | At the end of a refresh the attempts on screen are those of the selected item, if nothing was clicked and no other list arrived since its list. |
| OutboxMonitor.AttemptsMatchSelection | apps/web/components/OutboxMonitorPanel.tsx:53-213 | In every run the attempts on screen are the selected item's if and only if the last answer that wrote them is about the item that the last click or list selected. |
| OutboxMonitor.AnswersWereSelected | apps/web/components/OutboxMonitorPanel.tsx:61-212 | In every run each refresh waits for the attempts of the item its own list selected, and each click for those of the item clicked. |
| OutboxMonitor.AttemptsOfAnotherItem | apps/web/components/OutboxMonitorPanel.tsx:53-213 | Witness: a click between the two answers of a refresh, answered first, ends with the clicked item selected, the attempts of the other one shown and nothing under way. |
| OutboxMonitor.MonitorPanel.constructor | apps/web/components/OutboxMonitorPanel.tsx:42-51 | The panel starts empty and unlocked. |
| OutboxMonitor.MonitorPanel.OnRefresh | apps/web/components/OutboxMonitorPanel.tsx:53-57 | A refresh asks for the list. |
| OutboxMonitor.MonitorPanel.OnRefreshFails | apps/web/components/OutboxMonitorPanel.tsx:73-77 | A failed refresh is over and leaves selection and attempts alone. |
| OutboxMonitor.MonitorPanel.OnList | apps/web/components/OutboxMonitorPanel.tsx:57-72 | The middle of a refresh selects what the list still has of the current selection, else its first item. |
| OutboxMonitor.MonitorPanel.OnDetail | apps/web/components/OutboxMonitorPanel.tsx:68-69 | The end of a refresh shows the attempts of the item it had chosen. |
| OutboxMonitor.MonitorPanel.OnClick | apps/web/components/OutboxMonitorPanel.tsx:208-211 | A click selects the item in ref and state and asks for its attempts. |
| OutboxMonitor.MonitorPanel.OnClickDetail | apps/web/components/OutboxMonitorPanel.tsx:211-212 | The answer to a click shows the attempts of the item clicked. |
| OutboxMonitor.MonitorPanel.OnPress | apps/web/components/OutboxMonitorPanel.tsx:266-318 | A press starts an operation on the selected item exactly if permission, lock and status allow it. |
| OutboxMonitor.MonitorPanel.OnCallSettled | apps/web/components/OutboxMonitorPanel.tsx:88-98 | A success goes on to the refresh; a failure releases the lock. |
| OutboxMonitor.MonitorPanel.OnRefreshDone | apps/web/components/OutboxMonitorPanel.tsx:90-91 | When its refresh is over, also a failed one, the operation goes on to the notification. |
| OutboxMonitor.MonitorPanel.OnNotified | apps/web/components/OutboxMonitorPanel.tsx:91-98 | The end of the notification releases the lock. |
| ActionOutbox.RunKeepsInv | apps/web/components/ActionOutboxPanel.tsx:96-236 | In every run of any number of panels, retries included, every status on the server, on a screen or under way, and every call made, is backed by the approvals and queueings accepted before, and no queueing was accepted before an approval. |
| ActionOutbox.DeliveryNeedsApprovalAndQueueing | apps/web/components/ActionOutboxPanel.tsx:208-222 | Delivery can be pressed only after an accepted approval followed by an accepted queueing of that action, queueing only after an approval, and neither while locked, however old the lists on screen are. |
| ActionOutbox.OneOperationAtATime | apps/web/components/ActionOutboxPanel.tsx:96-236 | In every run the operations a panel has started exceed those that have ended by one while it is locked and by none otherwise, and while it is locked none of its buttons is enabled. |
| ActionOutbox.AcceptedInOrder | apps/web/components/ActionOutboxPanel.tsx:170-222 | Every accepted delivery comes after an accepted approval and then an accepted queueing of the same action, however late calls are accepted. |
| ActionOutbox.ButtonsMatchServer | apps/api/src/actions/actions.service.ts:171-240 | A review button is enabled exactly when nothing is under way and the server would accept the call for the latest action as shown; the delivery button, when that action is queued. |
| ActionOutbox.WorkflowOrder | apps/web/components/ActionOutboxPanel.tsx:170-222 | Submitting leads to approval or rejection, approval to queueing, queueing to delivery, and to no other button; a rejected or delivered action enables none. |
| ActionOutbox.CallsAreForLatest | apps/web/components/ActionOutboxPanel.tsx:59-222 | In every run each panel shows the list it received last and has made one call per press, in order, each of them the one its button names, for the latest action on screen, in the status the button asks for. |
| ActionOutbox.ActionPanel.constructor | apps/web/components/ActionOutboxPanel.tsx:45-52 | The panel is in its initial state: nothing shown, sent or locked. |
| ActionOutbox.ActionPanel.OnPress | apps/web/components/ActionOutboxPanel.tsx:170-222 | A press of a workflow button is the panel's `Press` step exactly if that step is enabled, and changes nothing otherwise. |
| ActionOutbox.ActionPanel.OnProveDenial | apps/web/components/ActionOutboxPanel.tsx:225-236 | The denial button makes the approval call exactly for those who may not approve an action that awaits review. |
| ActionOutbox.ActionPanel.OnCreate | apps/web/components/ActionOutboxPanel.tsx:148-160 | The create button takes the lock exactly if permission and lock allow it. |
| ActionOutbox.ActionPanel.Serve | apps/web/components/ActionOutboxPanel.tsx:69 | An answer that is current when the server gives it is the panel's `Serve` step. |
| ActionOutbox.ActionPanel.OnList | apps/web/components/ActionOutboxPanel.tsx:69-72 | The arrival of a list is the panel's `Receive` step. |
| ActionOutbox.ActionPanel.OnRunEnds | apps/web/components/ActionOutboxPanel.tsx:108-110 | The end of a run is the panel's `Finish` step. |
| AuditPager.RunKeepsInv | apps/web/components/AuditExplorerPanel.tsx:98-129 | In every run of filter changes, presses, reloads, answers and failures in any order: the offset is a multiple of 25, the latest request is for the current filters and offset, and loading shows only while some request is open. |
| AuditPager.OffsetIsWholePages | apps/web/components/AuditExplorerPanel.tsx:98-129 | In every run of filter changes, presses and answers in any order the offset is a multiple of 25. |
| AuditPager.LastAnswerDecides | apps/web/components/AuditExplorerPanel.tsx:114-116 | What is on screen is what the last answer brought, whichever request it answers. |
| AuditPager.RowsMatchRequest | apps/web/components/AuditExplorerPanel.tsx:101-126 | In every run the rows on screen are those of the current filters and offset if and only if the last answer is to a request for the same as the latest one. |
| AuditPager.RequestsFollowPresses | apps/web/components/AuditExplorerPanel.tsx:101-126 | In every run there is a request for the first page and one more for each filter change (first page, new filters), page turn (neighbouring page, same filters) and reload (the same again), in order. |
| AuditPager.OpenUntilSettled | apps/web/components/AuditExplorerPanel.tsx:113-121 | In every run a request is open exactly until its own answer or failure. |
| AuditPager.ControlsMeaning | apps/web/components/AuditExplorerPanel.tsx:244-313 | In every run Prev works if and only if nothing is marked as loading, the offset is not 0 and the last answer brought rows and a total above 25; Next if and only if nothing is loading and the last answer brought rows and a total above 25 and above the end of the page. |
| AuditPager.LoadingMeaning | apps/web/components/AuditExplorerPanel.tsx:101-126 | In every run loading shows exactly if the last event is not an answer or a failure, of whichever request. |
| AuditPager.WalkVisitsAll | apps/web/components/AuditExplorerPanel.tsx:101-129 | Pressing Next from the first page until it is disabled, each press followed by its answer, shows each row of an unchanging result set once, in order, on ceil(total/25) pages, or one empty page. |
| AuditPager.PrevUndoesNext | apps/web/components/AuditExplorerPanel.tsx:293-313 | After Next and its answer, Prev is enabled and leads back, and the page label stays within the page count. |
| AuditPager.WayBack | apps/web/components/AuditExplorerPanel.tsx:292-313 | With the current page of the current result set on screen, Prev works behind the first page if and only if the result set reaches beyond the offset; otherwise neither control works, and loading again does not change that. |
| AuditPager.StuckBehindTheEnd | apps/web/components/AuditExplorerPanel.tsx:98-313 | Witness: on the second page of 26 rows one row disappears; after loading again the page is empty and neither control does anything. |
| AuditPager.StuckByLateAnswer | apps/web/components/AuditExplorerPanel.tsx:101-313 | Witness: the answer for an abandoned filter comes in last; with every request settled, the second page of 60 rows shows as empty and neither control does anything. |
| AuditPager.AuditExplorer.constructor | apps/web/components/AuditExplorerPanel.tsx:83-126 | The explorer starts at offset 0 with its first request. |
| AuditPager.AuditExplorer.LoadPage | apps/web/components/AuditExplorerPanel.tsx:101-105 | Marks loading and requests the current page. |
| AuditPager.AuditExplorer.OnFilterChange | apps/web/components/AuditExplorerPanel.tsx:156-159 | A filter change returns to offset 0 and loads. |
| AuditPager.AuditExplorer.OnNext | apps/web/components/AuditExplorerPanel.tsx:305-307 | Next moves one page on and loads, exactly when enabled. |
| AuditPager.AuditExplorer.OnPrev | apps/web/components/AuditExplorerPanel.tsx:294-296 | Prev moves one page back, never below 0, and loads, exactly when enabled. |
| AuditPager.AuditExplorer.OnRefresh | apps/web/components/AuditExplorerPanel.tsx:139-142 | The filter button loads again unless something is loading. |
| AuditPager.AuditExplorer.OnAnswer | apps/web/components/AuditExplorerPanel.tsx:114-121 | An answer replaces rows and total, without any test for which filters and page it is, and ends loading. |
| AuditPager.AuditExplorer.OnFailure | apps/web/components/AuditExplorerPanel.tsx:117-121 | A failure ends loading and keeps rows and total. |
| TermCascade.TierOf | apps/web/components/ObservabilityPanel.tsx:41-67 | The first tier with a term in the text decides: it has one, and no earlier tier does. |
| TermCascade.DeadIffShadowed | apps/web/components/ObservabilityPanel.tsx:41-67 | In any ordered cascade a term can never decide if and only if it contains a term of an earlier tier. |
| TermCascade.OnlyUnhealthyIsDead | apps/web/components/ObservabilityPanel.tsx:39-68 | Of all terms of the tone cascade exactly `unhealthy` is dead. |
| TermCascade.ToneMeaning | apps/web/components/ObservabilityPanel.tsx:39-68 | The tone is success if and only if the text contains a good term, warning if and only if a doubtful and no good one, danger if and only if a bad and no other one. |
| TermCascade.DenialsReadAsSuccess | apps/web/components/ObservabilityPanel.tsx:39-68 | Every text around a good term gets the success tone, also `unhealthy`, `disconnected` and `inactive`. |
| TermCascade.OnlyVeryHighIsDead | packages/connectors/src/glpi-adapter.ts:33-43 | Of all terms of the priority cascade exactly `very high` is dead. |
| TermCascade.PriorityMeaning | packages/connectors/src/glpi-adapter.ts:33-43 | Each priority is returned if and only if the text contains a term of its tier and none of an earlier one. |
| TermCascade.VeryHighIsHigh | packages/connectors/src/glpi-adapter.ts:38-41 | A text that contains `very high` never becomes critical: low if it also has a low term, else high. |

## Left out

- Sockets, HTTP, the NATS client, timers, abort controllers and UTF-8 decoding: only messages and their possible outcomes are modelled; data events are decoded text.
- The API server, the outbox engine, the delivery policy and the database: they appear only as answers, and through the guards of the calls that the two outbox panels make.
- The AMI socket's error event, the `--test-event` mode, and how a post to the API ends.
- The constant fields of a normalised call event (tenant, direction, status); a call id made from the clock is a tag.
- Headers named `__proto__`: an ordinary assignment does not create such a key, so the model skips them.
- Digest payloads that are not objects, numbers that are not safe integers, `toJSON`, inherited and `__proto__` members; lists of fields may repeat a key, where the first one counts.
- The worker's loop without NATS, its `status` and `process-once` commands, login, stream set-up and the drain at the end. The broker may redeliver any message that it has not seen acknowledged, to any worker, at any time; what a message carries never changes.
- GLPI response bodies, Base64, the trailing slash of the base URL and the mock client.
- Directories, links, I/O errors, missing template assets, an adopt target that is the template checkout itself, and the conversion of line ends on writing under Windows. What the template ships, the rendered texts and the repository scan are parameters.
- The installer's messages, and the parsing of its command line.
- Overlapping rounds of the endpoint agent's interval timer, its command-line modes, and the error messages in its reports.
- That a ticket load answers with the session it was asked for is an assumption of `SessionDetails`; the page's lists of sessions and the results of its other operations are not modelled, only that these end with a fetch.
- React's scheduling: each handler and each callback is one step, and its state is visible to the next press.
- What `ActionOutbox` assumes of the server is that an action becomes approved only by an accepted approval and queued only by an accepted queueing or by the retry of an outbox item, which a queueing has created (apps/api/src/actions/actions.service.ts:194-213, 236-324 and 425-448); every other change may happen at any time, and an accepted call may leave the status as it is.
- The text to create from, attempts, outbox items and the session switch of the action panel; new drafts may appear and a panel may receive any current list at any time.
- The cascades take text that is already lower case; `normalizeGlpiState`, `latestDeliveryFlag` and the derived rows of the observability panel are finite tables.
- Rendering, labels, badges and all other panels.
