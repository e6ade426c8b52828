# Byteswarm: a verified model

Byteswarm is an at-least-once event system. This project models its delivery protocol, subject
routing, bounded replay and plugin confinement in Dafny, and proves what each of them guarantees.
`dafny verify dfyconfig.toml` checks everything.

## What is modelled

- **Delivery** (`Registry`, `Delivery`, `DeliveryGuarantees`, `ExactlyOnce`, `Witnesses`). The registry is a class
  whose index is proved to agree with the log of `Register` calls; its fan-out and the bus callback
  are methods. The broker and all instances together are one transition system: an append-only
  stream; durables keyed by name, which survive the instance bound to them; per message and durable
  a status with a delivery count; and one record per delivery of the targets invoked so far. Steps
  are publish, subscribe, deliver, invoke one target, answer, receive or lose the answer, ack-wait
  expiry, close and crash. Any interleaving is allowed. Safety is proved over all runs, and the
  exactly-once effect for idempotent, commuting handlers whose instances agree about the consumer;
  runs from the start show that none of the three conditions can be dropped.
- **Routing** (`Event`, `Routing`, `Ingress`). Subjects and filters as strings, the NATS wildcards on
  their dot-separated tokens, durable names, and the two boundaries that admit events.
- **Replay** (`Replay`). The read loop over a stream that may grow between any two reads.
- **Confinement** (`Paths`, `PathGuard`, `FileTree`, `Sandbox`, `SandboxIsolation`,
  `SandboxInterference`, `Store`, `JobScripts`). Lexical path cleaning as a component stack, its
  meaning as a walk over locations, the containment test, the file sandboxes over one shared tree,
  and the namespaced store over one shared repository.
- **Execution** (`Watchdog`, `CapBuf`). A script, its context's timer and its watchdog goroutine under
  all interleavings, with the job runner's failure report; and the bounded output buffer.

## Conventions and assumptions

- A Go string is a byte string and each `char` stands for one byte. Where the source ranges over
  runes it tests an ASCII charset, which decides the same as ranging over bytes.
- A message body is an envelope that decodes to the event it was made from, or does not decode.
- The broker follows JetStream's rules for a durable push consumer with manual acknowledgement: one
  instance is bound at a time and must ask for the durable's own filter; an Ack or Term of any
  delivery closes an outstanding message, and a Nak of any delivery makes it due again; a message is
  not delivered after its fifth delivery; an answer to a message that is no longer outstanding is
  ignored.
- A handler's failed attempt has no effect on its consumer's own state or the full effect of a
  success; an invocation cut off by a crash is a failed attempt followed by the crash.
- The token after the prefix is a piece between dots and may be empty; NATS itself refuses subjects
  with an empty token, which a workflow ID such as `a..b` produces.
- `NextMsg` times out only when no matching message is available, and the metadata of a JetStream
  message is readable. Sequence numbers are positions plus one: nothing has been purged.
- The source documents containment for every base; the model follows the code, which decides it
  exactly for bases whose last component is an ordinary name (`ResolveExactIffOrdinary`).
- The source says that a broadcast is delivered to every consumer. The durable of broadcasts is one
  for all scopes, so among scoped instances with different consumers the one that is bound to it
  handles the broadcast for all (`BroadcastMissesConsumer`).
- The source's comment on `Replay` says that nothing published after the call began is read; the
  code can read one such event, and does so for some growth of the stream unless the snapshot ends
  in a message to replay (`ExactHistoryIff`).

## Model

| member | source | states |
|---|---|---|
| Registry.TargetMultiplicity | internal/consumer/registry.go:46-53 | a consumer is targeted once per declaration of the type, and by a broadcast once per registration even if it also declared the broadcast type |
| Registry.TargetOrder | internal/consumer/registry.go:46-53 | each registration adds its consumer at the end of the target list, once per declaration of the type, or once if the event is a broadcast |
| Registry.Registry.Register | internal/consumer/registry.go:46-53 | the index stays equal to the registration log filtered by each type, in order, and the broadcast list equal to the log |
| Registry.SafeHandle | internal/consumer/registry.go:116-130 | an error is reported iff the handler did not return cleanly, a panic as a recovered one |
| Registry.Registry.Dispatch | internal/consumer/registry.go:90-110 | exactly the event's targets are called, in order, each once with the event unchanged and in the world its predecessor left, whatever earlier ones did; the failure count is the number that did not return cleanly, positive iff some target failed |
| Registry.Registry.OnMessage | internal/bus/bus.go:172-194 | an undecodable message calls nothing and is termed; otherwise the targets are called with the decoded event and the verdict is Ack iff none failed, Nak iff one failed and the delivery is not known to be the fifth, else Term |
| DeliveryGuarantees.CallbackIsRun | internal/bus/bus.go:172-194 | the callback's behaviour on one delivery, for any outcomes of its targets, is a run of the protocol that sends the decided verdict |
| Delivery.StepKeepsInv | internal/bus/bus.go:168-215 | every step keeps the protocol invariant: counts within five, one attempt per counted delivery, answers consistent with outcomes, messages closed only by an answer some attempt gave |
| DeliveryGuarantees.PublishEffect | internal/bus/bus.go:146-162 | publishing is always possible and adds the message, undelivered on exactly the durables whose filter matches it |
| DeliveryGuarantees.BindIff | internal/bus/bus.go:168-206 | an instance can bind a durable exactly when its scope asks for the filter and the durable is new or bound by nobody; outstanding messages do not matter |
| DeliveryGuarantees.LossIsLocal | internal/bus/bus.go:199-215 | a close or a crash unbinds the instance's own durables and keeps every message, count and answer under way; a crash also loses the instance's running deliveries, and nothing else is touched |
| DeliveryGuarantees.InvokeEffect | internal/consumer/registry.go:100-105 | an invocation calls the next target of the attempt's own instance with the message's event, records its outcome and changes the state of no other consumer |
| DeliveryGuarantees.ResumeRedelivers | internal/bus/bus.go:199-206 | an unacknowledged message of a durable nobody is bound to is redelivered, with the next count, to any instance of its scope that binds it, once the ack wait has run out |
| DeliveryGuarantees.CanStillComplete | internal/bus/bus.go:162-206 | no message is ever stuck: in every state of the protocol a message that is not closed and was delivered fewer than five times can still be brought to any instance of its scope, and is acked, or termed if it does not decode, on the next count if the targets succeed |
| DeliveryGuarantees.Conservation | internal/bus/bus.go:172-195 | in every reachable state each matching message is undelivered, outstanding with count one to five, acked, terminated or exhausted; a decodable one is terminated only after five deliveries with a failing target on the last |
| DeliveryGuarantees.AckedWasHandled | internal/bus/bus.go:180-193 | an acked message had a decodable delivery on which every target returned without error or panic |
| DeliveryGuarantees.LastDeliveryDecides | internal/bus/bus.go:180-193 | when the delivery count is readable, the callback of a fifth delivery acks if every target succeeded and terms otherwise, and that answer, received while the message is outstanding, closes it as acked or terminated; the message is exhausted iff first the ack wait of the fifth delivery ran out or a Nak of an earlier one arrived, and then no answer of the fifth delivery was received in time |
| DeliveryGuarantees.ClosedForever | internal/bus/bus.go:199-215 | acked, terminated and exhausted messages stay so through a close that leaves callbacks running, a crash and a restart, and are never delivered again |
| DeliveryGuarantees.DurableIsShared | internal/bus/bus.go:318-321 | the broker keeps one durable per filter, shared by all instances and restarts |
| DeliveryGuarantees.DeliveriesEnd | internal/bus/bus.go:34-36 | for a fixed stream and set of durables an explicit budget drops with every delivery and never rises, so deliveries stop |
| DeliveryGuarantees.InvocationBound | internal/bus/bus.go:180-195 | over any run from the start a durable invokes a consumer for a message at most five times per occurrence in the target list, and never if its filter does not match |
| DeliveryGuarantees.ScopedInvocationBound | internal/bus/bus.go:34-36 | the same for all durables of an instance's scope: at most five per matching subscription and per occurrence |
| DeliveryGuarantees.RegisteredInvocationBound | internal/consumer/registry.go:67-84 | the same in terms of how often the consumer declared the type or was registered |
| DeliveryGuarantees.CrashOnLastDelivery | internal/bus/bus.go:180-195 | from any state of the protocol in which a fifth delivery is being handled, a crash leads to an exhausted message that no attempt ever termed |
| Witnesses.CrashExhausts | internal/bus/bus.go:180-195 | such a run from the start: four failed deliveries handed back, a crash during the fifth, and an exhausted message that no attempt ever termed |
| Witnesses.CrashResumes | internal/bus/bus.go:199-206 | a run from the start in which an instance crashes holding a message and another one binds the durable, is delivered the message a second time and handles it: acked with count two and its effect applied |
| DeliveryGuarantees.RunStatus | internal/bus/bus.go:172-195 | over any run a message becomes acked iff an Ack, and terminated iff a Term, reaches the broker while it is outstanding, and exhausted iff after its fifth delivery the ack wait runs out or a Nak arrives first |
| ExactlyOnce.FoldInsert | internal/consumer/registry.go:67-72 | for an idempotent, commuting handler, handling a message anywhere in the stream again or for the first time puts it into the folded set |
| ExactlyOnce.EffectKept | internal/consumer/registry.go:101-105 | every step keeps each consumer's state equal to the fold over the messages applied to it |
| ExactlyOnce.ExactlyOnceEffect | internal/bus/bus.go:168-206 | when every matching message is acked, the consumer's state is the fold of its handler over its events, once each, whatever redeliveries, closes, crashes, lost answers, reorderings and double matches occurred, provided the instances that may serve one durable agree about the consumer on what it receives; other instances may have other consumers |
| Witnesses.AgreementIsNeeded | internal/bus/bus.go:318-321 | wherever two instances that may serve one durable disagree about a consumer there is a fully acked run in which it never sees the event |
| Witnesses.ExactlyOnceIffAgreed | internal/consumer/registry.go:67-84 | for an idempotent, commuting consumer that notices every event, the effect is exactly once in every fully acked run iff the instances that may serve one durable agree about it |
| Witnesses.BroadcastMissesConsumer | internal/event/event.go:22-25 | a broadcast to two scoped instances with different consumers can be fully acked without one of the consumers seeing it |
| Witnesses.IdempotenceIsNeeded | internal/consumer/registry.go:67-72 | wherever a handler is not idempotent there is a fully acked run whose effect is not that fold |
| Witnesses.CommutingIsNeeded | internal/consumer/registry.go:67-72 | wherever a handler does not commute on two events there is a fully acked run, delivering them in reverse order, whose effect is not that fold |
| Routing.MatchTokensMeaning | internal/event/event.go:32-40 | the token matcher decides NATS matching: `*` is one token, a final `>` one or more |
| Event.ValidTypeIff | internal/event/event.go:51-72 | the admitted types are the broadcast and the words of 1 to 128 of the bytes A-Z, a-z, 0-9, `-` and `_` |
| Routing.EncodableIff | internal/bus/bus.go:292-314 | an event can be encoded iff its type is admitted and its workflow token, `_` for none, has at most 256 bytes and no space, tab, CR, LF, `*` or `>`; an invalid type is reported before the length |
| Routing.SubjectFormat | internal/bus/bus.go:292-304 | the subject's text, and that none of those bytes is in it |
| Routing.FilterFormat | internal/event/event.go:41-49 | the texts of the one any-scope and of the two scoped subscriptions |
| Routing.DecodeEncode | internal/bus/bus.go:292-304 | reading a subject back gives the event's type and workflow token |
| Routing.SubjectUnambiguous | internal/bus/bus.go:292-304 | two encodable events share a subject iff they agree on type and workflow, up to identifying the empty workflow with `_` |
| Routing.DottedTypeWouldCollide | internal/event/event.go:51-56 | every dotted type, all of which are invalid, would share its subjects with a shorter type |
| Routing.RoutingExact | internal/event/event.go:32-49 | a scoped instance's first subscription matches iff the workflow token is the scope, the second iff the event is a broadcast, both iff it is a broadcast tagged with the scope, and the any-scope subscription matches every encodable event |
| Routing.ExactScopeIff | internal/event/event.go:41-49 | for any scope, taken unvalidated from configuration, the filter is exact iff no whole token of it is a wildcard or its shortest match is not a token the bus would publish |
| Routing.DurableNameIsSafe | internal/bus/bus.go:316-321 | the durable name of a whitespace-free subject has no dot, wildcard or whitespace |
| Routing.DurableFormat | internal/bus/bus.go:318-321 | the text of the durable name of a filter of each of the three shapes |
| Routing.DurablesPairwiseDistinct | internal/bus/bus.go:316-321 | the any-scope, workflow and broadcast durables are pairwise distinct for every scope |
| Routing.WorkflowDurableSharedIff | internal/bus/bus.go:318-321 | a scope shares its durable with another scope that has none of the replaced bytes iff it has one itself, so such scopes never share |
| Routing.DurableSharedIff | internal/bus/bus.go:318-321 | a scope shares its durable with some other scope iff it contains a replaced byte or one of the replacements `_`, `all`, `gt`, `at` |
| Routing.DottedScopeCollides | internal/bus/bus.go:318-321 | workflows `a.b` and `a_b` share a durable name |
| Ingress.SubmitAdmitsIff | internal/server/events.go:84-101 | the HTTP ingress admits exactly the encodable events with a workflow of at most 128 bytes |
| Ingress.SubmitRule | internal/server/events.go:84-101 | the HTTP ingress admits exactly the events with an admitted type and a workflow of at most 128 bytes without space, tab, CR, LF, `*` or `>`, and names the type, then the length, as the fault |
| Ingress.ScriptRule | internal/plugin/publish.go:54-65 | a script may publish exactly the events with an admitted type, a workflow that is a word of at most 128 bytes or empty, and a payload of at most 1 MiB, and is told the first of these to fail |
| Ingress.ScriptAdmitsIff | internal/plugin/publish.go:54-65 | a script may publish exactly the admissible events with a restricted workflow charset and bounded payload, all of them encodable |
| Ingress.AdmittedEventsAreRouted | internal/server/events.go:82-101 | every admitted event reaches the any-scope instances, and a scoped one iff it carries the scope or is a broadcast |
| Replay.DeliveredIsHistoryAndOneMore | internal/bus/bus.go:217-225 | what a replay delivers is the history of the snapshot and at most one event past it, none when the message at the snapshot's last sequence is itself replayed |
| Replay.MatchingPositions | internal/bus/bus.go:259-277 | the history between two positions is the decodable events at the positions whose subject matches, in stream order, and no others |
| Replay.ExactHistoryIff | internal/bus/bus.go:217-225 | a replay delivers exactly the history of its snapshot however the stream grows meanwhile iff the message at the last sequence number of the snapshot is itself replayed; otherwise some growth makes it read a later event |
| Replay.StartIsExact | internal/bus/bus.go:239-244 | in a chronological stream replay starts exactly at the messages at or after `since` |
| Replay.ReadLoop | internal/bus/bus.go:253-277 | the loop terminates; on a normal exit the handled events are exactly those delivered for the last view read, and on every other exit a prefix of them; it is cancelled only when the context is done at the head of a turn, ends with an error exactly in the turn in which NextMsg or the handler fails, and otherwise finishes after at least one turn |
| Replay.Replay | internal/bus/bus.go:226-278 | the whole call: the error exits before the loop are taken exactly when the subject is empty, the stream info fails, or the stream is not empty and the subscription fails, and handle nothing, as does the empty stream; a call in which nothing fails and the context stays live finishes; the loop's guarantee holds for the stream as it grew |
| Paths.CleanIdempotent | internal/pathguard/pathguard.go:20-28 | cleaning a cleaned path changes nothing and keeps rootedness and components |
| Paths.CleanForm | internal/pathguard/pathguard.go:28 | the text of a cleaned path: ordinary names, preceded in a relative path by `..` components only, or `.` or `/` if nothing is left |
| Paths.CleanSameLocation | internal/pathguard/pathguard.go:28 | a path and its cleaned form name the same location from every working directory |
| Paths.JoinLocation | internal/pathguard/pathguard.go:28 | a joined path names what the second path names read from where the first leads, or the second alone if the first is empty |
| Paths.CleanCharacterised | internal/pathguard/pathguard.go:28 | two paths have the same cleaned form iff they name the same location from every working directory |
| Paths.DirPathStack | internal/plugin/fs.go:116 | the directory of a cleaned path drops its last name |
| PathGuard.WithinIffComponents | internal/pathguard/pathguard.go:35-38 | on cleaned paths the string prefix test holds iff the base's components are a prefix of the path's |
| PathGuard.UnderIffComponents | internal/pathguard/pathguard.go:20-23 | lying at or under an ordinary base, from every working directory, is having its components as a prefix |
| PathGuard.ResolveRule | internal/pathguard/pathguard.go:24-38 | for every cleaned base an absolute name is refused and a relative one resolves, to the cleaned form of base, `/` and name, iff that is the base or starts with the base and a `/` |
| PathGuard.ResolveExact | internal/pathguard/pathguard.go:24-33 | for an ordinary base a relative name resolves, to its cleaned path, iff its destination lies at or under the base; an absolute name never does |
| PathGuard.ResolveExactIffOrdinary | internal/pathguard/pathguard.go:24-38 | containment is exact for all relative names iff the cleaned base is not `.`, `/` or a run of `..` |
| PathGuard.ReenteringNameAccepted | internal/pathguard/pathguard.go:24-33 | a name that climbs out of the base and back in is accepted |
| FileTree.CleanedLocate | internal/plugin/fs.go:84-87 | in a well-formed symlink-free tree a cleaned path resolves iff its location exists |
| FileTree.CleanKeepsNode | internal/pathguard/pathguard.go:28 | wherever a path leads in such a tree, its cleaned form leads too |
| FileTree.CleanSameNodeIff | internal/pathguard/pathguard.go:28 | in a given tree a path and its cleaned form reach the same node iff the path leads to nothing or goes through existing directories only |
| FileTree.KeepsNodeEverywhereIff | internal/pathguard/pathguard.go:28 | they do so in every tree and from every directory iff, before each component, the path holds no name on its stack or stands properly above its destination |
| FileTree.CleanMayReachMore | internal/pathguard/pathguard.go:28 | for `a/../b` the cleaned form leads somewhere the path does not |
| Sandbox.TargetLocation | internal/plugin/fs.go:55-61 | a resolved name is the sandbox's location extended by proper names |
| Sandbox.ReadRule | internal/plugin/fs.go:75-99 | from the tree as it is: data is read iff the name leads inside to a file of at most 8 MiB and no file is on the way to the sandbox; an escaping name and a larger file have errors of their own |
| Sandbox.WriteRule | internal/plugin/fs.go:104-131 | from the tree as it is: when data is stored, and which refusal is met otherwise, the size being checked before the name |
| Sandbox.WriteChanges | internal/plugin/fs.go:104-131 | a stored write puts the data at its target, creates the missing directories on the way, and changes nothing else |
| Sandbox.SandboxedFS.ReadFile | internal/plugin/fs.go:75-99 | for every base, reading by path with its errors and the directory it creates; for a base that ends in an ordinary name this is the sandboxed read below its directory, and under `.` or `/` everything is refused |
| Sandbox.SandboxedFS.WriteFile | internal/plugin/fs.go:104-131 | the same for writing: the sandboxed write below the directory, never the directory itself and never over a directory |
| Sandbox.WriteThenRead | internal/plugin/fs.go:75-131 | what a write under one name stored is within the read bound and reads back unchanged under every name with the same normal form |
| Sandbox.SameTargetIff | internal/plugin/fs.go:55-61 | two accepted names are one file of the sandbox iff their destinations are one location from every working directory |
| Sandbox.NoSandboxAtTheTop | internal/plugin/fs.go:55-61 | a sandbox whose base is cleaned to `.` or `/` refuses every read and every write |
| Sandbox.SandboxIsMap | internal/plugin/fs.go:72-131 | a sandbox is a map keyed by normalised path: a write changes what its own target reads as and no other, a refused write and a read change none |
| SandboxIsolation.ReadRefines | internal/plugin/fs.go:72-99 | a read of the shared tree answers as a read of the plugin's own tree and keeps the two in step |
| SandboxIsolation.WriteRefines | internal/plugin/fs.go:101-131 | a write of the shared tree answers as a write of the plugin's own tree and keeps the two in step |
| SandboxIsolation.SharedReadsBack | internal/plugin/fs.go:75-131 | in a run over the shared tree a plugin reads back what it wrote, under every name with the same normal form |
| SandboxIsolation.BaseLocation | internal/plugin/host.go:97-107 | a plugin named by one ordinary component is sandboxed in that child of the plugins root |
| SandboxIsolation.SandboxesAreIsolated | internal/plugin/host.go:97-107 | with distinct ordinary plugin names every interleaving answers as if each plugin had its own tree, taken from its sandbox at the start, in every tree with no file on the way to the plugins root |
| SandboxInterference.IndependentIff | internal/plugin/host.go:97-107 | over every tree and every interleaving of reads and writes each plugin gets the answers it would get alone iff of every two plugins one is confined to `.` or `/`, where it can do nothing, or both directories end in an ordinary name and neither is, or lies under, the other |
| SandboxInterference.RunReadsBack | internal/plugin/fs.go:75-131 | the same for every plugin name whose directory ends in an ordinary name |
| SandboxInterference.ConfineLocation | internal/plugin/host.go:97-107 | a plugin is confined to where its name leads from the plugins root, or from the working directory if the root is empty |
| SandboxInterference.NestedNamesShare | internal/plugin/loader.go:48-67 | distinct names do not isolate: plugins named `a` and `a/b` are not independent of each other |
| Store.Validate | internal/plugin/loader.go:48-67 | accepts exactly the configurations whose declarations are sound and uniquely named, otherwise names the first declaration that breaks it and why, in the order in which the loader checks |
| Store.RangesDisjointIff | internal/plugin/store.go:27-29 | two plugins' key ranges are disjoint iff neither prefix is a prefix of the other |
| Store.IsolationIffSeparate | internal/plugin/store.go:27-39 | every interleaving of loads and saves behaves as one private map per plugin iff the ranges are pairwise disjoint |
| Store.ValidColonFreePluginsAreIsolated | internal/plugin/loader.go:48-67 | plugins of a valid configuration without colons in their names are isolated |
| Store.UniqueNamesMayCollide | internal/plugin/loader.go:48-67 | unique names alone do not separate the ranges |
| Store.LoadAnswers | internal/plugin/store.go:27-39 | in any run a load answers the state saved last under its namespaced key, by whichever plugin, or else what the repository held before, and nothing if there is neither |
| Store.NamespacedStore.Load | internal/plugin/store.go:32-34 | a load answers the repository's state under namespace, `:` and key, and nothing if there is none |
| Store.NamespacedStore.Save | internal/plugin/store.go:37-39 | a save puts the state under namespace, `:` and key, is seen by later loads of that key, and changes nothing for stores with a separate range |
| JobScripts.ResolveJob | internal/jobrunner/jobrunner.go:85-102 | a job name yields a script iff the path guard accepts it and it is a regular file; for a jobs directory that ends in an ordinary name, iff it is relative and its destination lies at or under that directory and is a file there |
| Watchdog.WatchdogSafety | internal/plugin/host.go:162-199 | in all interleavings the VM is interrupted only after the context is done, a returned call leaves the watchdog able to exit and a context with a timeout released, and nil is returned only if the program completed |
| Watchdog.FailuresAreCounted | internal/consumer/registry.go:116-130 | every failing plugin call, including a panic before its own recover is installed, is a counted failure |
| Watchdog.OnlySuccessCounts | internal/consumer/registry.go:116-130 | a plugin call counts as a failure iff it did not return nil, which it does only if its program ran to the end without an error |
| Watchdog.UnexpiredResult | internal/plugin/host.go:188-198 | unless the context expires the result is exactly the program's own ending, recovered if it is a plugin's panic |
| Watchdog.RunsAreShort | internal/jobrunner/jobrunner.go:137-153 | every step of every thread uses up a measure of at most ten |
| Watchdog.AlwaysEndsIff | internal/plugin/host.go:167-186 | every interleaving ends with the call returned and the watchdog gone iff the context can become done, the call does not reach the script, or the script ends by itself |
| Watchdog.ResultIff | internal/plugin/host.go:162-199 | over all interleavings a call can have exactly two results: the program's own ending, and an interrupt iff it gets to run its script under a context that can expire |
| Watchdog.FailureReport | internal/jobrunner/jobrunner.go:107-166 | over all interleavings a job makes at most one publish attempt: exactly one when it returns an error, from resolving or running, with a publisher configured, and none on nil or panic; the attempt is on a live context iff the context did not expire before it, so never after a wall-clock interrupt |
| Watchdog.LateExpiryLosesReport | internal/jobrunner/jobrunner.go:107-120 | a job whose script throws reports on a live context or, if the context expires between the error and the attempt, on a dead one |
| CapBuf.CapBuf.Write | internal/jobrunner/host.go:315-327 | after any sequence of writes the buffer is the first `max` bytes of everything written, or all of it if `max` is not positive, and the full length is reported |

## Left out

- The NATS client and server: connecting, reconnecting, connection options, stream retention, and the serial delivery within one subscription (the model allows more interleavings).
- The JSON and base64 text of the envelope, and of HTTP requests and responses.
- Compiling and executing JavaScript, and the capability objects given to a script.
- `exec`, daemonizing, sockets, HTTP requests and the job runner's open file functions.
- Symlinks and concurrent changes to the file system from outside; permissions; I/O errors other than a missing entry or one of the wrong kind.
- The SQL adapters: the repository is a map with upsert and a distinguished answer for a missing key.
- Configuration loading, flags, logging, telemetry, middleware, health endpoints and the workflow state names.
- Shared-secret authentication and bearer parsing.
- `Registry.Run` and `Host.LoadAll`: loops that stop at the first error; each subscription is one protocol step.
- `Host.source`: it inlines the containment check of `PathGuard.Resolve` on the plugins root before reading a script.
- The registry's lock: `Dispatch` works on the list it copied.
- MatchTokensMeaning: does not model that NATS refuses subjects with an empty token.
