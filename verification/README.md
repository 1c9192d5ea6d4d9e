# Custody, delivery and lifecycle of the h-mesh office, in Dafny

This project models the parts of the office that decide what happens to a message and to an agent, and
proves what they promise. One Redis command or Lua script is one atomic step; everything between two steps
interleaves with everything else.

- **Custody** (`Custody`, `CustodySafety`, `CustodyEvidence`, `CustodyOrder`, `CustodyFlow`, `Receive`, `PortFrames`): the
  receiving end of a queue as a transition system over the Redis lists, with any number of port processes
  that may die between any two commands, senders, the retirement script and retention. Conservation,
  at-most-once effects and the truth of the evidence are proved without any lease; order needs one live
  port at a time, which `LeaseOrder` takes from the lease's conditions. `Receive` is the port's own code, each
  command preceded by whatever others do; `PortFrames` ties its judgements to the frame parser.
- **Scripts and keys** (`Keys`, `RedisStore`, `Scripts`, `Retirement`): the Lua scripts command by command over
  a store in which commands fail on the wrong type, on keys built as the key module builds them.
- **Lifecycle** (`Lifecycle`, `StartAgent`, `StartPayload`, `StartLeaves`, `StartRun`, `Rehire`): membership, lead and
  incarnation over any sequence of scripts; what a start request says, which are turned away, and what an accepted
  one leaves, all in terms of the payload; `start_agent` and `stop_agent` against a Redis that may refuse a command or
  lose its reply; and a hire after a stop as a first hire.
- **The switch** (`Envelope`, `Utf8`, `Splice`, `Switch`, `Fairness`): the fixed-width frame, its parsers and in-place
  edits, the fate of a popped frame under an adversarial Redis, and the rotation over queues.
- **Reply correlation** (`Correlation`, `ReplyTrust`), **receipts** (`Receipts`, `ReceiptTrace`), and the smaller
  state machines with real bounds: the **lease** (`Lease`), **stopping daemons** under PID reuse (`Daemons`,
  `DaemonStop`), the **stall monitor** (`StallMonitor`) and the **window-log tailer** (`WindowLog`, `Tailer`, `TailerRuns`).

Where the code does less than its description, the code is modelled and the exact condition is proved:

- A bare read failure in `start_agent` after an acknowledged write is logged as a plain failure
  (`StartAgent.FailureCanFollowWrite`).
- `receive` recovers only the head of `processing`: with two or more frames there it leaves the others for a later
  call (`Receive.Port.Receive`).
- `receive` is meant to survive every frame. It raises, and leaves the rest of `ingress` undrained, exactly at a
  frame whose parse raises something other than `EnvelopeError`, which also stays in `processing` for good
  (`CustodyEvidence.BrokenFramesStay`), and at a dead-lettered frame whose body replaced `l2` by a value that is
  no object, because the notice to its sender looks there outside its own `try` (`PortFrames.NullL2Trips`).
- Bytes appended to the window log between the size check and the emptying of the file are lost, and a stop
  between the emptying and the reset of the offset can skip bytes (`TailerRuns.BytesAreLost`,
  `TailerRuns.BytesAreSkipped`); a line nested too deep for the JSON library pins the offset
  (`TailerRuns.Pinned`).
- The reply-id format check accepts one trailing newline (`Keys.TrailingNewlineHasNoKey`).
- A pid file and its identity file are written one after the other, so a stop in between forgets the new daemon
  (`DaemonStop.HalfWrittenIdentityIsForgotten`; `DaemonStop.OwnedExactly` is the exact condition).
- A lease of two milliseconds does not survive one failed renewal, and one of a single millisecond not even a late
  first turn (`Lease.OverlapsExactly`).
- `h-app/lib/agentlifecycle/README.md:33` still says that delivered claims can validate a predecessor's
  provenance; the code binds them to the incarnation, which is what is modelled.
- The window-cause publish script cannot be reached from `start_agent`: an api start returns earlier and every
  other start takes the lead script.

## Model

| member | source | states |
|---|---|---|
| CustodySafety.Conservation | h-app/core/channels.py:269-422 | In every reachable state of any interleaving of ports, crashes, recoveries and retirements, with no lease assumed, the admitted copies are as a multiset exactly those in ingress, processing, opening, ever dead by receive, ever opened, unresolved and undeliverable |
| CustodySafety.AtMostOneEffect | h-app/core/channels.py:325-329 | Opener starts for a frame, plus its copies retired or refused unopened, never exceed the copies admitted |
| CustodySafety.RunKeeps | h-app/core/channels.py:55-68 | The books (copies, entries past the effect boundary, starts, recorded outcomes) balance in every state of every run, and each process past the boundary owns its own entry |
| CustodyEvidence.AtMostOncePerAdmission | h-app/core/channels.py:286-291 | The same counted on events: calls of an opener for a frame plus its copies in undeliverable are at most its admissions |
| CustodyEvidence.RetiredIsNeverOpened | h-app/lib/agentlifecycle/lifecycle.py:220-222 | A frame admitted once and retired to undeliverable never has its opener called, before or afterwards, even by a predecessor still running |
| CustodyEvidence.RecordsAreTrue | h-app/core/channels.py:328-344 | Each opened entry has its own normal opener return, each dead-by-opener one its own DeadLetter, each failed unresolved record its own other exception |
| CustodyEvidence.RefusedNeverEntered | h-app/core/channels.py:302-324 | Copies put in dead unopened are disjoint from copies that ever entered opening: both kinds and what still waits add up to the copies admitted |
| CustodyEvidence.OnlyAcceptedFramesOpen | h-app/core/channels.py:302-327 | Whatever is in opening, was ever handed to an opener, or ever was in opened or unresolved, parses and has an opener |
| CustodyEvidence.SweepNeverFails | h-app/core/channels.py:377-396 | In every reachable state the recovery sweep gets past the head of opening: decoding it cannot fail |
| CustodyEvidence.SurfacedFrameParses | h-app/core/channels.py:388-396 | Nor can parsing the frame the sweep has just moved raise: the sweep goes on |
| CustodyEvidence.BrokenFramesStay | h-app/core/channels.py:302-313 | In every run, a frame whose parse raises something other than EnvelopeError is only ever in ingress, processing or undeliverable |
| CustodyEvidence.CappedListsAreNewest | h-app/core/retention.py:16-21 | In every run opened holds exactly the newest of everything ever opened, as many as its cap allows, and dead the newest part of everything ever put there, whatever retention did |
| CustodyOrder.FifoEffects | h-app/core/channels.py:400-422 | With one live port at a time, processing and opening together never hold more than one frame and opener starts are a subsequence of admission order, across crashes and successors |
| LeaseOrder.FifoUnderLease | h-app/core/dispatch.py:217-232 | Composed with the lease: while every live port runs inside a body of a permitted lease run, one claim at a time and opener starts in admission order |
| CustodyOrder.TwoClaimsWithoutLease | h-app/core/channels.py:398-422 | Without one live port at a time, two ports that claim and crash leave two frames in processing, of which a later receive recovers only the head |
| CustodyFlow.FlowsStep | h-app/core/channels.py:283-344 | No step brings a frame back to an earlier list, and every evidence log only grows at its end |
| Receive.Port.Receive | h-app/core/channels.py:347-422 | Whatever others do between its commands, every execution of receive is a run of the custody protocol; alone and alive long enough it returns if and only if no frame it meets makes it raise: then ingress and opening are empty, and processing is empty exactly when there was at most one frame to recover; otherwise it raises at the first such frame and leaves the rest in ingress; either way what was left in opening is surfaced in order, and then every frame met was handed to its opener, if it has one, in order, and recorded as that opener ended |
| Receive.Port.OpenReceived | h-app/core/channels.py:269-344 | One claim: every branch follows the protocol; undisturbed it raises if and only if parse raises something other than EnvelopeError, or the frame parses, its sender cannot be looked up, and it has no opener or its opener raised DeadLetter; in every other case exactly the held frame leaves processing; a frame that parses and has an opener is handed to it once and ends in opened, dead or unresolved as the opener ended, any other frame that leaves ends in dead, and no other evidence changes |
| Receive.Port.SurfaceUncertain | h-app/core/channels.py:375-396 | The sweep surfaces everything in opening, in order, as unresolved and touches nothing else; undisturbed it cannot raise |
| Receive.Port.Drain | h-app/core/channels.py:408-422 | The loop opens the frames in order up to the first that makes it raise, or all of them, and then ingress and opening are empty; each is recorded as its opener ended |
| Receive.Port.Enter | h-app/core/channels.py:323-325 | The truth boundary: the held frame leaves processing and is alone in opening |
| Receive.Port.RecordOutcome | h-app/core/channels.py:328-344 | The opener’s own outcome decides the list; undisturbed the record of an accepted frame empties opening, and it raises if and only if the outcome was a DeadLetter and the sender cannot be looked up |
| Receive.Port.FirstClaim | h-app/core/channels.py:398-406 | A recovered frame comes before any newer one, and an empty processing list means the head of ingress is claimed |
| Receive.TransferIsStep | h-app/core/channels.py:55-68 | The transfer script, reply included, is the protocol move of the process that runs it, for each of the five places it is called from |
| PortFrames.OpensExactly | h-app/core/channels.py:315-316 | An accepted frame has a kind, the one in its body, and has an opener if and only if that kind is registered |
| PortFrames.BuiltFramesOpen | h-app/core/envelope.py:100-139 | A frame that build makes and encode writes is accepted by the receiving port, its sender can be answered, and it has an opener if and only if its kind is registered |
| PortFrames.UnknownKindNeverStarts | h-app/core/channels.py:315-324 | In every run of any number of ports, no opener is ever called for a frame whose kind is not registered or that does not parse, and it is never recorded as opened |
| PortFrames.DeliverableServed | h-app/core/channels.py:323-344 | A queue of frames that parse, have openers and can be answered is opened whole: all of them start, in order, and dead, unresolved and opened grow by exactly those whose own opener ended so |
| PortFrames.ReceiveDeliverable | h-app/core/channels.py:347-422 | receive itself, undisturbed, on an office whose ingress holds such frames only: it returns, the queue is empty, and every frame was started and recorded as its opener ended |
| PortFrames.AnswerableExactly | h-app/core/channels.py:171-171 | The sender of an accepted frame cannot be looked up exactly when its body brings an l2 of its own that is no object |
| PortFrames.BreaksExactly | h-app/core/envelope.py:296-304 | parse raises something other than EnvelopeError exactly for UTF-8 with a good header over a body that json.loads ends with a plain ValueError or a RecursionError |
| PortFrames.NullL2Trips | h-app/core/channels.py:315-324 | A frame of a kind without opener whose body says "l2": null is accepted by parse, moved to dead, and then makes receive raise |
| PortFrames.HugeBodyStays | h-app/core/channels.py:302-313 | Such a frame is never settled by any port in any run: its copies wait in ingress or processing until the agent is retired |
| Keys.PrefixInjective | h-app/core/keys.py:56-68 | prefix is injective on valid pod, tenant, optional agent and optional dotted resource: no two resources alias |
| Keys.SenderOfKey | h-app/core/service.py:390-397 | Splitting an egress key on ":" and taking the last part but one gives exactly the owning sender |
| Keys.SplitJoin | h-app/core/keys.py:68-68 | Splitting a joined key gives back its parts |
| Keys.DeliveredKeyInjective | h-app/lib/reply_correlation.py:118-131 | A delivered key determines agent, stream id and incarnation |
| Keys.DeliveredResourceIsValid | h-app/lib/reply_correlation.py:119-127 | The letter prefixes make every 32-hex id usable as a key segment, all-digit ids included |
| Keys.TrailingNewlineHasNoKey | h-app/lib/reply_correlation.py:109-115 | The format check also lets through a 32-hex id followed by one newline; no key can be built from such an id, so nothing is ever recorded or verified under it |
| Scripts.Redis.Transfer | h-app/core/channels.py:55-68 | For every typed database: an error exactly when a list key holds another type, and then nothing changed; otherwise one copy moves and no other key changes |
| Scripts.Redis.Admit | h-app/core/queues.py:11-25 | Every queue gets one copy for each time it is named, or none does; a refusal names the first full queue and its depth, and an error or a refusal leaves the database unchanged |
| Scripts.Redis.PublishMembership | h-app/lib/agentlifecycle/lifecycle.py:85-97 | Fails only when the registry is no hash, and then changes nothing; otherwise the member row is set and the incarnation minted only for a new or an unbound member |
| Scripts.Redis.PublishWindowCause | h-app/lib/agentlifecycle/lifecycle.py:36-56 | The same, with the cause set; nothing else changes |
| Scripts.Redis.PublishLeadMembership | h-app/lib/agentlifecycle/lifecycle.py:58-83 | Fails exactly when lead is no string or registry no hash, and then changes nothing; otherwise the lead is claimed exactly when it was vacant |
| Scripts.Redis.Retire | h-app/lib/agentlifecycle/lifecycle.py:109-246 | Succeeds exactly when the preflight holds, and fails without any change; on success processing then ingress, opening and the inbox entries are in the evidence lists in order as hex, the instance keys are gone, and no other key changed |
| Scripts.Redis.FirstFull | h-app/core/queues.py:14-19 | Names the first full queue, all queues before it having room; says admitted only if all have room |
| Scripts.Redis.PushCopies | h-app/core/queues.py:20-24 | Every list grows by one copy for each time it is named, and no other key changes |
| Retirement.KeysNeverAlias | h-app/lib/agentlifecycle/lifecycle.py:711-736 | The twenty-one keys a stop passes satisfy the aliasing condition the script rests on, for every valid pod, tenant and agent |
| Retirement.FootprintIsExact | h-app/lib/agentlifecycle/lifecycle.py:711-736 | A valid key is in the script’s footprint if and only if it is one of this agent’s sixteen or the tenant’s five; which of the agent’s keys must be among them is what Rehire.NothingSurvives says |
| Retirement.OthersKeepEverything | h-app/lib/agentlifecycle/lifecycle.py:109-246 | Retirement leaves every key of every other agent, tenant and resource as it was |
| Retirement.ReceiptsSurvive | h-app/lib/agentlifecycle/lifecycle.py:220-222 | dead and opened outlive the retirement of their agent |
| Rehire.NothingSurvives | h-app/lib/agentlifecycle/lifecycle.py:225-244 | After a stop no key that any start of that agent can write remains, whatever the request, nor its pause or its delivery lease, and it is no member |
| Rehire.RehireIsFirstHire | h-app/lib/agentlifecycle/lifecycle.py:228-244 | A hire after a stop leaves every such key exactly as the same hire does on a database that never knew the agent |
| Rehire.StartableIsOwn | h-app/lib/agentlifecycle/lifecycle.py:500-680 | What a start of an agent writes of its own is among ten resources: launch identity, security configuration, cause and incarnation |
| Rehire.OwnIsStartable | h-app/lib/agentlifecycle/lifecycle.py:500-680 | And each of the ten is written by some start |
| Retirement.RetireIsTheProtocolStep | h-app/lib/agentlifecycle/lifecycle.py:150-223 | Reading the lists back, hex decoded, the script is exactly the custody protocol’s retirement step |
| Retirement.TransferReadsAsFrames | h-app/core/channels.py:63-66 | Read as frames, the transfer script’s LREM, RPUSH and LTRIM are the protocol’s list operations |
| RedisStore.UnhexHex | h-app/lib/agentlifecycle/lifecycle.py:131-137 | Hex evidence decodes to the exact bytes of the frame |
| Lifecycle.SoundForever | h-app/lib/agentlifecycle/lifecycle.py:200-204 | Over any sequence of publish and retirement scripts the lead, if set, is a registered member and only members have an incarnation |
| Lifecycle.NeverRebound | h-app/lib/agentlifecycle/lifecycle.py:37-47 | However often a bound member is started again, it keeps its incarnation until it is stopped |
| Lifecycle.LeadIsKept | h-app/lib/agentlifecycle/lifecycle.py:63-66 | A lead stays the lead until that very agent is stopped |
| Lifecycle.RehireIsNew | h-app/lib/agentlifecycle/lifecycle.py:238-244 | With ids that never repeat, an agent hired again after a stop never carries an incarnation it had before |
| Lifecycle.PublishIsStep | h-app/lib/agentlifecycle/lifecycle.py:58-97 | On the real keys each publish script does to the database what its step does to the office |
| Lifecycle.WithdrawIsStep | h-app/lib/agentlifecycle/lifecycle.py:200-204 | So does retirement, for every agent’s incarnation at once |
| StartAgent.PublishIsLast | h-app/lib/agentlifecycle/lifecycle.py:544-680 | Every launch write a tmux start asks for comes before the one command that makes the agent visible |
| StartAgent.VisibleMeansComplete | h-app/lib/agentlifecycle/lifecycle.py:544-680 | At every moment of a first tmux hire, an observer who sees the registry row sees every requested piece of launch state and exactly the requested policy |
| StartAgent.FailureCanFollowWrite | h-app/lib/agentlifecycle/lifecycle.py:552-613 | A read, whose failure is logged as a plain failure, can come after a write if and only if the agent already is a tmux member and the request sets resume, permissions or tools, or both profile and provider |
| StartAgent.BareFailureExample | h-app/lib/agentlifecycle/lifecycle.py:573-584 | A concrete restart in which the launch write is acknowledged and the next command is a read |
| StartAgent.ApiNeverReads | h-app/lib/agentlifecycle/lifecycle.py:500-541 | An api start reads nothing, so each of its failures is before all writes or recorded incomplete |
| StartRun.Starter.Start | h-app/lib/agentlifecycle/lifecycle.py:386-694 | A rejection precedes every command; otherwise the commands run are a prefix of the plan, the reported acknowledgements are exactly those of that prefix, the database is that prefix’s effects and at most one more, a failure is a command that did fail, and the window is replaced exactly when the stored launch state differed; an accepted start leaves the database its payload asks for, field by field |
| StartRun.Starter.WriteDesired | h-app/lib/agentlifecycle/lifecycle.py:314-329 | A label is acknowledged only for a write that was answered; a write that was not may or may not have happened |
| StartAgent.Validate | h-app/lib/agentlifecycle/lifecycle.py:362-495 | A request that passes names an addressable agent; that it carries exactly the payload’s own fields is StartPayload.ValidateExactly |
| StartPayload.ValidateExactly | h-app/lib/agentlifecycle/lifecycle.py:362-495 | A request is what validation makes of an envelope if and only if the payload carries each of its fields under its own name, no unknown field, and every name, secret and account in it may be asked |
| StartPayload.RejectedExactly | h-app/lib/agentlifecycle/lifecycle.py:362-495 | A start is turned away if and only if some named field is malformed, and by anything but a lifecycle rejection only for an unhashable port type or a failing account lookup |
| StartPayload.Spelling | h-app/lib/agentlifecycle/lifecycle.py:386-495 | Every request that may be asked, and that supplies a policy if it has tags, is what validation makes of some payload |
| StartLeaves.DoneFollows | h-app/lib/agentlifecycle/lifecycle.py:498-694 | A start done with its plan leaves what its payload says, field by field: each tag side the encoding of the payload’s own list under that name and no side it does not list, the key revoked and then the key set, each setting as given and every setting not given as before, and one row added to the registry |
| StartRun.Starter.StartTmux | h-app/lib/agentlifecycle/lifecycle.py:543-694 | The tmux path runs its plan command by command and claims the lead exactly when it was vacant at the start |
| StartRun.Starter.StartApi | h-app/lib/agentlifecycle/lifecycle.py:500-541 | The api path runs its plan: revocation, key, policy, membership |
| StartRun.Starter.SettleIdentity | h-app/lib/agentlifecycle/lifecycle.py:546-581 | A change is found exactly when a running member’s launch, profile or provider differs from what is asked |
| StartRun.Starter.SettleFlags | h-app/lib/agentlifecycle/lifecycle.py:583-615 | The same for resume, permissions and tools |
| StartRun.Starter.Stop | h-app/lib/agentlifecycle/lifecycle.py:697-745 | A rejection changes nothing; a script of unknown outcome was carried out completely or not at all; an acceptance means the agent is withdrawn |
| Envelope.RoundTrip | h-app/core/envelope.py:167-203 | For every frame encode accepts, the header is the first 256 characters, the body decodes to the frame’s body fields, and both parsers give the frame back in canonical form |
| Envelope.BuildRoundTrip | h-app/core/envelope.py:100-139 | A frame build accepts is encoded exactly when the JSON library can write its body, and then parse gives it back unchanged |
| Envelope.HeaderReadsBack | h-app/core/envelope.py:193-267 | Whatever follows it, a written header is read back field by field |
| Envelope.HeaderSlices | h-app/core/envelope.py:193-203 | Each field of a written header sits at its fixed offset |
| Splice.ParsersAgree | h-app/core/envelope.py:245-307 | parse and parse_for_switch read the same header from any bytes both accept |
| Splice.PartsOfSwitchable | h-app/core/envelope.py:296-307 | Of bytes the switch accepts, parse reads that same header and fails only for the body |
| Splice.AcceptedDecodes | h-app/core/envelope.py:296-307 | A frame parse accepts is UTF-8, so the receiver’s later decode of it cannot fail |
| Splice.StampExact | h-app/core/envelope.py:270-276 | Stamping replaces the source and nothing else, for the switch and for the receiver; every byte outside the field is kept |
| Splice.AdvanceExact | h-app/core/envelope.py:279-293 | Advancing a hop replaces the two counters and nothing else |
| Splice.ForwardedExact | h-app/core/service.py:477-508 | A frame is forwarded exactly while its budget is not spent, and then only source, ttl and hops change |
| Splice.ForwardsExactly | h-app/core/service.py:500-508 | Over any chain of senders a frame is forwarded each time if and only if there are at most min(ttl-1, 999-hops) of them, still with its id, destination and body |
| Splice.BuiltFramesStop | h-app/core/envelope.py:18-18 | A frame encoded with the default ttl and no hops is forwarded at most fifteen times |
| Utf8.DecodeAsciiPrefix | h-app/core/envelope.py:206-226 | An ASCII prefix decodes to itself and leaves the rest to decode as it would alone |
| Switching.Switch.Route | h-app/core/service.py:461-475 | A normal return leaves the popped frame once at the end of every recipient’s ingress in the database, or once at the end of the sender’s dead list for a reason that holds, or nowhere for a broadcast to nobody; a raise leaves it in at most one of these and is explained by a reply, a wrong-typed key or a bad name; over the recorded history of the database every other command but the one notice changed nothing; delivery attempts are started exactly for the recipients of a placed frame that can be kicked, in order, and at most for the sender’s notice besides, and none for a frame that was dead-lettered, went to nobody or raised |
| Switching.Switch.Forward | h-app/core/service.py:477-575 | Exhausted retries escape only before any placement; any other raise after at most one; each placement is what its own command did to the database |
| Switching.Switch.Retrying | h-app/core/service.py:406-435 | A command that may have run is never repeated: at most the last one issued wrote, and every other left the database as it found it; giving up means every attempt was refused before it ran, or was a read |
| Switching.Switch.DeadLetter | h-app/core/service.py:437-454 | On a normal return the last command appended the frame to the sender’s dead list in the database; otherwise it did so at most once, and a write never run surfaces as its cause, not as exhaustion |
| Switching.Switch.AdmitFrame | h-app/core/service.py:536-574 | Admits at most once, by the last command, giving every queue its copies in the database; a full answer means that command found the named queue at its bound; an outcome that cannot be known is counted under its category, and nothing else is |
| Switching.Switch.KickAll | h-app/core/service.py:529-542 | After a broadcast placement nothing can raise or place the frame again; the recipients that can be kicked are, in order, and one notice is tried exactly when some cannot |
| Switching.Switch.KicksExactly | h-app/core/service.py:529-536 | The kicks are of exactly the recipients that can be kicked, each once, in the order of the recipients |
| Switching.Switch.Broadcast | h-app/core/service.py:510-545 | All agents the registry held when it was read, but the sender, get the frame in the database and are kicked if they can be, or it is dead-lettered because one of them was full then, or there are none |
| Switching.Switch.Unicast | h-app/core/service.py:546-575 | The destination, registered when the registry was read, gets the frame in the database and is kicked if it can be, or the frame is dead-lettered because it was unregistered or full, and then nobody is |
| Switching.Switch.NotifySender | h-app/core/service.py:342-378 | The notice is tried once, by one command that writes nothing but the notice, and neither places the popped frame nor raises |
| Switching.OneCopyEach | h-app/core/service.py:248-259 | An admission to distinct agents puts exactly one copy at the end of each one’s ingress |
| Switching.Place.ChronicleGrows | h-app/core/service.py:406-435 | The history stays true command by command: each logged write is what its own command did to the whole database, and a command with no logged write changed nothing |
| Switching.StartsWithW | h-app/core/service.py:75-78 | A wrong-type error is no transient category, so it is never retried |
| Switching.RejectionsExactly | h-app/core/service.py:40-78 | The exceptions retried as rejected before execution are exactly the five answers by which a server refuses a command; a lost connection or a time-out never is |
| Fairness.Rotation.Step | h-app/core/service.py:380-399 | One call pops the first waiting agent in the rotated order and moves the rotation on by one |
| Fairness.BoundedWait | h-app/core/service.py:381-399 | With the registry unchanged, an agent whose egress stays non-empty is popped within as many calls as there are agents, whatever the other queues hold |
| Correlation.TrueMeansDelivered | h-app/lib/reply_correlation.py:96-103 | Over every interleaving with fresh ids, a verified match was recorded from that source less than an hour ago by a recorder that read the very incarnation current at the check, with no stop or hire of that agent in between |
| Correlation.DeliveredMeansTrue | h-app/lib/reply_correlation.py:185-191 | Conversely such a delivery, not overwritten since, verifies |
| Correlation.SameIncarnation | h-app/lib/agentlifecycle/lifecycle.py:238-244 | Holding one incarnation at two moments means nothing rebound the agent in between |
| ReplyTrust.Port.WasDelivered | h-app/lib/reply_correlation.py:202-273 | True only for a justified claim at the atomic check; False only when the id, the incarnation or the claim does not match; None only when a command went unanswered or no key can be made |
| ReplyTrust.Port.RecordDelivered | h-app/lib/reply_correlation.py:149-199 | What is written, even by a SET whose reply was lost, is written under the incarnation that was read, and nothing is left out without one of the named reasons |
| ReplyTrust.Port.DropUntrustworthy | h-app/modules/api/port.py:58-122 | An in_reply_to is kept if and only if it is well-formed, names who replies, and both commands of its own check were answered, the second with a claim from this client; what is kept is justified, what is dropped is malformed, refuted or unverifiable, and nothing else in the envelope changes; it raises exactly when the body replaced l2 by a non-object |
| ReplyTrust.Port.DeliverApi | h-app/modules/api/port.py:125-151 | Frames go in order to the inbox or to dead; each inbox envelope is the parsed one, without its in_reply_to exactly if that failed the frame’s own check, at the commands and moments of that check; what is kept is justified; it stops early only at a frame whose parse or whose sender lookup raises |
| ReplyTrust.DroppedForReason | h-app/modules/api/port.py:99-122 | A field is taken out only if it is malformed, names nobody, was refuted at its own check or was unverifiable there |
| ReplyTrust.DeliveredIsStored | h-app/modules/api/port.py:106-143 | A reply to a message that was recorded for the replier as coming from this client within the hour, and not overwritten, is stored with its field when its check is answered, after whatever other frames |
| Receipts.OnePlace | h-app/core/receipts.py:138-147 | For a frame sent once to one destination, the trace names at most one place in every reachable state |
| Receipts.LocatedIsWhere | h-app/core/receipts.py:1-26 | Whatever place the trace names is where the frame is |
| Receipts.NeverBackwards | h-app/core/receipts.py:36-48 | Along every run the traced stage only advances, and an end once traced is never exchanged for another |
| Receipts.OfficeConserves | h-app/core/channels.py:269-422 | Conservation by stream id: custody accounts for every admitted copy |
| ReceiptTrace.Trace | h-app/core/receipts.py:56-102 | The indexes found are exactly the keys that hold the id, in order; a key of the wrong type never hides the others |
| ReceiptTrace.HexEvidenceIsFound | h-app/core/receipts.py:67-88 | The trace’s decode of sixty-six digits finds hex evidence exactly when the frame carries the id, whatever its length |
| ReceiptTrace.NeverPartial | h-app/core/receipts.py:150-157 | The overall state of a unicast frame is never partial |
| ReceiptTrace.StateOnlyAdvances | h-app/core/receipts.py:36-48 | What a sender is told goes from queued to delivering to one final word |
| ReceiptTrace.WordIsTrue | h-app/core/receipts.py:36-48 | The word a sender is told is true of the frame: delivered if and only if it was recorded opened, failed if and only if it is dead, bounced or retired unopened, and so for the others |
| Lease.NoOverlap | h-app/core/dispatch.py:168-232 | With a lease of at least three milliseconds, turns delayed less than a sixth of it and no two failed in a row, no two bodies overlap, whoever polls and however late old threads act |
| Lease.TwoGapsFit | h-app/core/dispatch.py:202-214 | One failed renewal is survivable for all such delays if and only if the lease is at least three milliseconds |
| Lease.OverlapsExactly | h-app/core/dispatch.py:202-214 | Some permitted run has two bodies at once if and only if the lease is below three milliseconds |
| Lease.TwoMillisecondsOverlap | h-app/core/dispatch.py:203-203 | A permitted run with a two-millisecond lease in which two bodies overlap |
| Lease.OneMillisecondOverlaps | h-app/core/dispatch.py:203-203 | With one millisecond two bodies overlap although no renewal failed |
| Lease.LeaseIsOnesOwn | h-app/core/dispatch.py:34-48 | From any state and through any events of others, permitted or not, late renewals and releases included, a live lease stays exactly as its owner left it until it expires or is deleted |
| Lease.StopEndsExclusion | h-app/lib/agentlifecycle/lifecycle.py:225-227 | A stop in the middle lets a successor in beside the running body, whatever the lease |
| DaemonStop.Host.OpenOwned | h-app/services/daemons.py:275-304 | Over every interleaving with exits and PID reuse, an owned pidfd is bound to the process that had the PID at the first step and runs at the last, and the identity file, as read in between, recorded its start time; if nobody rewrites that file meanwhile, what it holds decides; a start-time mismatch means the recorded process is gone; undisturbed, the status is exactly what the evidence says |
| DaemonStop.Host.Authenticate | h-app/services/daemons.py:246-272 | The identity file is read whenever it is there, and then alone decides; ownership established without it means it was absent |
| DaemonStop.Host.StopOne | h-app/services/daemons.py:320-389 | Every signal goes to one process, at most a TERM and a KILL: the one that had the pid file’s PID when the pidfd was opened and that the identity file, as read afterwards, recorded; a stop is reported only once it is gone, and the pid files go only with a reason |
| DaemonStop.Host.AwaitExit | h-app/services/daemons.py:363-384 | An exit is reported if and only if some poll was answered after it |
| DaemonStop.Host.StopOwned | h-app/services/daemons.py:355-389 | A KILL is sent only if no poll of the first wait was answered after the exit, and an exit is left unconfirmed only if the last look failed or found the process alive |
| DaemonStop.Host.Recorded | h-app/services/daemons.py:246-272 | The evidence is what the identity file held at the first step; it is trusted only if it names this daemon and PID and the start time /proc shows |
| DaemonStop.Host.Legacy | h-app/services/daemons.py:216-243 | Without an identity file, three separate reads of /proc describe the bound process if it is still alive at the end |
| Daemons.AliveThroughout | h-app/services/daemons.py:278-285 | A process seen alive at the end was that same process at every earlier step |
| Daemons.AnyCommandName | h-app/services/daemons.py:205-213 | The start time is read correctly whatever spaces and parentheses the command name holds |
| DaemonStop.OwnIdentityIsOwned | h-app/services/daemons.py:415-448 | The identity file a start writes is accepted for that very process as long as it runs |
| DaemonStop.OwnedExactly | h-app/services/daemons.py:257-272 | For a running process a readable identity file gives owned exactly when it names this daemon and PID and records that very start time, and mismatch otherwise |
| DaemonStop.HalfWrittenIdentityIsForgotten | h-app/services/daemons.py:434-441 | A pid file already rewritten beside an identity file not yet rewritten counts as a mismatch although the new daemon runs; a stop then removes its files |
| StallMonitor.Monitor.Poll | h-app/core/ingress_health.py:63-90 | After every pass the published agents are the stalled ones, these are exactly the overdue ones, and an entry that stays keeps its since |
| StallMonitor.OverdueIsSteady | h-app/core/ingress_health.py:79-90 | Overdue is exactly: the same head at every pass for at least stall_seconds |
| StallMonitor.Monitor.Visit | h-app/core/ingress_health.py:75-90 | One member’s queue changes only that member’s watch, stall and entry |
| Tailer.WindowLogTailer.Poll | h-app/core/windowlog.py:28-99 | Byte for byte and in order, what was pending or appended is skipped, consumed, lost or still pending; lost is exactly what was appended before the one step that emptied the file, which happens only to a settled file over its cap; what is published is exactly the complete lines consumed; every line complete at the start is settled unless the poll ends before its save, and it ends early only at the step that failed or at a poison line |
| Tailer.WindowLogTailer.Tail | h-app/core/windowlog.py:28-99 | Over any number of polls, any appends and any step failures, every byte that was pending or arrived is accounted for in order; where no poll was cut before its save and nothing was lost or skipped, what is published is what was settled, once; with appends only between polls and steps enough, all complete lines of everything appended are published exactly once |
| Tailer.WindowLogTailer.EmptyFile | h-app/core/windowlog.py:91-95 | What is lost is exactly what is appended between the size check and the emptying, and the file and the offset end as the step that failed says |
| Tailer.WindowLogTailer.ReadLines | h-app/core/windowlog.py:37-84 | Every complete line is published or skipped once, one step each, and a partial tail is never consumed; the loop stops before a line that json.loads answers with RecursionError |
| TailerRuns.BytesAreLost | h-app/core/windowlog.py:91-93 | A run in which a line appended just before the emptying is never published |
| TailerRuns.BytesAreSkipped | h-app/core/windowlog.py:93-94 | A run, cut between the emptying and the reset of the offset, in which the next poll skips a line appended meanwhile |
| TailerRuns.Pinned | h-app/core/windowlog.py:55-67 | Behind a line nested too deep the offset stays for good, and every poll publishes the lines before it again |
| WindowLog.RenderedConcat | h-app/core/windowlog.py:37-84 | What two runs of whole lines publish is what they publish together |
| WindowLog.WriterIsFirst | h-app/core/windowlog.py:71-78 | The writer filled in is what the first of source, agent and destination that says anything says, and unknown if none does |

## Left out

- StartRun.Starter.Start: other clients do not write between its commands; the tag and key-record texts are arbitrary functions of their values.
- StartRun.Starter.Stop: killing the window is an outcome only.
- Scripts.Redis.PublishWindowCause: a non-empty cause only, as at its one call site.
- Switching.Switch.Route: the observation records are left out, since a failing one is swallowed; the recipients are listed in some order, not the sorted one; a popped frame lost by a crash of the switch is `Drop` in `Receipts`.
- Switching.Switch.Forward: names in the registry that are no segments raise KeyError inside the admission, which is modelled, but the agents such rows could name are not.
- Receive.Port.Receive: the non-blocking form; a blocking claim is the same claim once a frame is there. Of the notice to the sender of a dead letter only the lookup of that sender is modelled, which can raise; the new frame it then sends, and the failures of that which it swallows, are not. Whether json.loads gives up on a body is taken to depend on the body alone.
- ReplyTrust.Port.DeliverApi: the frames are given as one drained snapshot; draining removes them from Redis before they are stored, so a death in between loses them and no conservation is claimed for it, nor for the unroutable drain of `h-app/core/dispatch.py:133-141`.
- Receipts.OnePlace: the list-backed stages of one sender and one destination; the api inbox is scanned by the trace but is no stage of this pipeline.
- ReceiptTrace.Trace: a raw frame in a record list and a record in a raw list count as no match, as their first bytes do.
- StallMonitor.Monitor.Poll: no failed call, and nobody else writes the hash; the wall-clock stamp of a new stall is given.
- Tailer.WindowLogTailer.Poll: json.dumps of a record just read does not raise; the file is emptied only by the tailer itself; replacing or shortening it from outside is not modelled.
- DaemonStop.Host.StopOne: what a process does when it is signalled is left to the environment.
- LeaseOrder.FifoUnderLease: that a port runs only inside the body that started it is a hypothesis on the two runs.
- Lease.NoOverlap: turns are instants of exact time; the acquisition time-out is left out.
- Envelope.RoundTrip: what json.dumps writes is assumed to be ASCII that json.loads reads back, and JSON numbers are integers; frames are bytes on the wire, so the text variants of the two edits are not modelled separately.
- Retirement.RetireIsTheProtocolStep: assumes the three custody lists hold frames, which is all the code ever puts there.
- Redis networking, subprocess spawning, the custody pipe and standard-output logging: best effort, their outcome is a parameter.
- The unreplied count, chat memory, boards, the document store, policy tags and cooperation tokens: one-command wrappers.
- Pausing and resuming an agent, tmux reconciliation, the Telegram and web clients, TLS, setup and upgrade: outside the custody and lifecycle core.
- The rollback of `start_daemons` and the health check after it: a loop of `_stop_one`, which is modelled.
