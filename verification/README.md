# V-Guard agreement: model and proofs

V-Guard lets one proposer order blocks of vehicle data and commit them in instances, each block and each
instance agreed on by its own *booth*, a membership profile taken from the vehicles within reach at that
moment. Ordering and consensus take two phases each: the proposer announces (OPA, CPA), the booth's members
reply with signature shares, and once `getThreshold` of them are combined the proposer sends the combined
signature round (OPB, CPB).

The project models these two stages, the components they rest on (the ID recorder, the shuffle buffer, the
booth registry, the reachability tables and the one-hop relay) and proves what they guarantee together.

| file | what it models |
|---|---|
| Types, Quorums, Signatures | snapshots, digests, shares; sizes of quorums; the contract of threshold signatures |
| OrderingAgreement, ConsensusAgreement | ordering under a proposer that sends different members different entries; one instance announced under different total hashes |
| OrderingReplies | the concurrent handlers of one block's ordering replies, lock section by lock section |
| ConsensusReplies | the concurrent handlers of one instance's replies, with shared backing arrays of share lists |
| CommitHandshake, OrderHandshake | the job channels between a validator's CA and CB, and its OA, OB and resending, handlers |
| IdRecorder | the recorder of ordered blocks and the consensus loop that reads it |
| Batching | the queue worker with its two cutting modes, as a queue specification and as the buffer it uses |
| BoothRegistry | booth keys, the registry and its index |
| Reachability, Routing | generation of the two reachability tables; direct send, detour, relay and reply path |
| Instances, Proposer, Validator | range collection and scanning; the proposer's and a validator's state and handlers |
| Protocol, ProtocolSteps, ProtocolTheorems | the whole as a step machine, its invariant, and what holds in every reachable state |
| ProtocolRuns | a run that commits, and runs that show where the guarantees end |
| ProtocolProgress | what members answer, and what enough answers lead to, in booths of any size |
| InstanceDelivery | a consensus round of the step machine carried by the send loop and the relays |

A component that the source updates in place is a class here. Each of its methods is proved equal, as a step on
a `View()`, to a specification function, and the properties are proved about that function. `Protocol` runs the
same specification functions: one proposer, any number of validators, some of them faulty, and a set of messages
sent, any of which may arrive in any order, repeatedly or never.

Digests are collision free and signatures are their contract: recovery succeeds exactly on `threshold` valid shares
of distinct signers. Assumed throughout: `BatchSize >= 1`, one ordering worker, serialization and sends succeed, and
connections are registered. What vehicles are in reach, tick times and time keys are arbitrary inputs.

## What does not hold

Where the code does not do what one would expect of it, the model follows the code. For each case a lemma gives an
input, and another says for all inputs exactly when the code does meet the expectation.

- A member of a commit booth catches up on every block it missed: a block is recorded (vordering.go:341) before its
  combined signature is stored (vordering.go:360-362), and a consensus round in between resends it without a signature.
  `ProtocolTheorems.CatchUpExactlyWhenStored` is the condition, `ProtocolRuns.SignsWithoutBlock` a run in which a correct
  member signs an instance without the block.
- The signers of a certificate are members of its booth: that follows from whom the messages go to, the shares are not
  checked for it. `ProtocolRuns.SignersAreMembersExactly` is the condition; `EndToEndSafety` says of the correct signers
  that they are members.
- One hash per block ID: `OrderingAgreement.AgreementExactly` counts the departures needed by how many servers the entries
  reach. Among the members of a booth of n = 3k + r servers it is k + 1 - r (`AgreementAmongMembers`), so in a booth of 5
  nobody has to depart. A server does not check that it is a member before it signs (comply.go:22-46), and it has a key
  for every booth (mmu.go:218-223), so k + 1 - r servers outside the booth serve as well (`OutsidersReplaceDepartures`).
- A combined signature attests a block ID: what is signed is the block's hash alone. `SignatureDoesNotBindBlockId` holds
  of every booth that needs shares at all; `SignatureBindsExactly` says when a signature does bind the ID.
- Different member lists are different booths: booth keys are decimal IDs written one after another, so proposer 0 takes
  the vehicles 1, 2, 34 and 1, 2, 3, 4 for one booth (`BoothRegistry.LookupConfusesBooths`). `LookupCorrectExactly` is the
  condition.
- An OB handler waits for its OA handler: it does so holding the lock that the OA handler needs, so the wait of
  comply.go:164-173 never ends. `OrderHandshake.DeadlockExactly` is the condition, for any number of blocks, OB handlers
  and resends: one that saw its block takes the lock while there is no commit snapshot of it. `DeadlockSchedule` is such a
  run, in `HoldsUpOthers` it keeps another block's OA handler from ever ending, and in `ResendAverts` a resend gets its
  snapshot in first.
- One total hash per instance: a validator does not remember what it signed for an instance, nor compute the total hash
  again from the hashes it checks (comply.go:209-266). All that holds it back is the instance's job channel: it sends a
  token there before it replies (comply.go:276-294), and waits while an earlier one has not been taken off by a commit
  message, whatever signature that carries (comply.go:312-331). `ConsensusAgreement.CommitConflictExactly` says when two
  hashes can be certified without anybody departing from the handlers, `AnnouncementsAloneConflict` the case without commit
  messages, and `CachesDoNotHelp` the case of a proposer that chooses the blocks as well; `ConflictSchedule` builds the run.
- One consensus-reply handler recovers each instance: overlapping handlers can both recover
  (`ConsensusReplies.OverlapRecoversTwice`), and they can lose each other's replies so that none does (`NobodyRecovers`).
  `RecoversExactly` says who recovers: those that read a list one reply short. (No list holds one reply twice all the same.)
- A detour never leads back to the sender: a relay decides anew, so when the time key changes on the way it can
  (`Routing.ChangedKeyBouncesBack`). `DetourComesBackExactly` is the condition, and `JourneyExactly` says how a journey ends
  under any sequence of keys.
- Every ordered block is in an instance: the consensus loop gives up after ConsWaitingSec empty polls in all, one at least.
  `IdRecorders.LateBlockUncovered` is a run in which a block comes later. `CoversAllExactly` is the condition, on what is
  recorded before each poll: no block comes after that many empty polls.

## Model

| member | source | states |
|---|---|---|
| ProtocolTheorems.EndToEndSafety | vconsensus.go:63-149 | in every reachable state, each block of a committed instance has an ordering certificate of threshold distinct signers, at least two, every correct one a member of that block's own booth holding the block as proposed; the hash announced for the block is the hash signed; the commit certificate is by a quorum of at least two of the commit booth |
| ProtocolTheorems.ThresholdsAtLeastTwo | mmu.go:281-301 | in every reachable state each block's and each instance's booth has a threshold of at least 2 |
| ProtocolTheorems.SomeoneCorrectHolds | vordering.go:283-331 | with fewer faulty servers than the threshold a certified block is held, as proposed, by a correct member of its booth |
| ProtocolTheorems.OrderMessageExactly | comply.go:125-176 | in every reachable state an OPB message for a block that the member was asked to order stores the true certificate with that block and changes nothing else; one for another block changes nothing |
| ProtocolTheorems.CertificateHeld | comply.go:157-176 | once a correct member has handled the OPB message of a block it was asked to order, it holds the certificate of that block, a quorum of its booth's threshold, for the rest of the run |
| ProtocolProgress.OrderRequestAnswered | comply.go:22-107 | a correct member answers the first OPA message of a block, and no later one, with its share on what was proposed |
| ProtocolProgress.InstanceRequestAnswered | comply.go:253-294 | a correct member answers an announced instance with its share on the announced hash unless its job channel is taken, and the channel is taken afterwards |
| ProtocolProgress.EnoughRepliesOrder | vordering.go:283-341 | in a booth of any size: from any reachable state in which as many different servers as the threshold have answered, handling their replies certifies the block with just these signers, and records it once |
| ProtocolProgress.EnoughRepliesCommit | vconsensus.go:195-261 | in a commit booth of any size: taking up threshold replies in turn gives the commit certificate with just these signers, and it goes to every member the instance was announced to |
| ProtocolTheorems.OrderedBlock | vordering.go:283-362 | every ordering certificate is a quorum on the digest of the proposed entries |
| ProtocolTheorems.CommittedInstance | vconsensus.go:224-252 | every commit certificate names threshold signers, the correct ones members of the commit booth, and the announced total hash |
| ProtocolTheorems.CommittedWasSigned | comply.go:253-346 | a correct validator whose CB handler went through had signed that instance, which has a commit certificate |
| ProtocolTheorems.InstancesPartitionOrder | vordering.go:17-35 | over whole runs each block is recorded once, exactly when it is certified, and lies in exactly one instance or is still unread |
| ProtocolTheorems.InstanceContent | vconsensus.go:66-129 | an instance covers each block once and stores, by ordering-booth name and in range order, exactly the entries of its blocks |
| ProtocolTheorems.ContentAgreement | comply.go:209-294 | a correct validator signs each announcement it handles unless a token of the instance is still on its job channel, and stores the proposer's content for the blocks it holds; holding all of them, it stores exactly what the proposer stored |
| ProtocolTheorems.CatchUpCarries | vconsensus.go:84-112 | each commit-booth member was in a covered block's ordering booth or its message carries that block's hash, entries, booth and, if present, the true certificate |
| ProtocolTheorems.CatchUpHolds | comply.go:196-202 | after the resend loop a block is held if and only if it was held before or a resent entry for it carries a certificate |
| ProtocolTheorems.CatchUpExactlyWhenStored | vconsensus.go:99-112 | a member outside the ordering booth gains the block if and only if the combined signature was stored when the range was collected |
| ProtocolRuns.SignsWithoutBlock | vordering.go:341-362 | a reachable state in which a correct member signs an instance without a certified block it covers |
| ProtocolRuns.LeftWithout | vconsensus.go:99-112 | with nobody faulty, such a run exists for any two three-vehicle lists with IDs below 100 without the proposer of which the first starts with two different vehicles and the second has one that the first has not; and that vehicle is the one left without |
| ProtocolRuns.SignersAreMembersExactly | vordering.go:268-307 | in every reachable state all signers of ordering certificates are members of the block's booth, if and only if no server is faulty |
| ProtocolRuns.CommitsInstance | vconsensus.go:189-252 | a reachable state in which an instance that covers a block has a commit certificate and a member's CB handler went through |
| ProtocolTheorems.OneMessagePerMember | vconsensus.go:168-183 | in the step machine the new instance is sent as one message per commit-booth member but the sender, with resent blocks if and only if the member is missing from some covered block's ordering booth; that the send loop does the same is InstanceDelivery.RoundAsAnnounced |
| InstanceDelivery.CollectedMembersDelivered | mmu.go:583-664 | with the new members that the collection finds, the nested send loop and the relays get to each commit-booth member within reach one message per listing, the new one if and only if it missed a covered block, and nothing to anyone else |
| InstanceDelivery.RoundDelivered | vconsensus.go:86-183 | of a round in any reachable state each validator within reach receives exactly its own entry, once in a booth without repetitions, and one out of reach nothing |
| InstanceDelivery.RoundAsAnnounced | vconsensus.go:168-183 | for members within reach the step machine's messages of a round are those that the send loop delivers |
| ProtocolTheorems.OrderFollowsProposal | vordering.go:360-369 | the combined signature of a block is stored and goes to exactly the members that the block was sent to for ordering, all of its booth but the proposer |
| ProtocolTheorems.CommitFollowsAnnouncement | vconsensus.go:249-261 | the commit certificate goes to exactly the members that the instance was announced to, all of its booth but the proposer |
| ProtocolTheorems.BoothsFoundAgain | mmu.go:235-261 | where the invariant holds, the booth looked up again by ID for OPB and CPB is the booth of the OPA and CPA |
| ProtocolTheorems.NextTells | vconsensus.go:168-183 | every step keeps that each block and each instance has been sent to every member of its booth but the proposer |
| ProtocolSteps.NextKeepsInv | vordering.go:268-373 | every step of proposer, validators and faulty servers keeps the invariant that ties all caches, messages and certificates together |
| ProtocolSteps.RunKeepsInv | vconsensus.go:189-263 | the invariant holds in every state of every run |
| ProtocolSteps.OrderReplyQuorum | vordering.go:307-331 | a share list that recovers is a quorum of servers that each replied for this block |
| ProtocolSteps.WriteRecovers | vconsensus.go:218-247 | what the write-back section recovers, even from a stale list, is a commit certificate |
| ProtocolSteps.AnnouncementOk | vconsensus.go:134-183 | a CPA message announces the ordered hashes of its range and provides its receiver with every covered block it missed |
| ProtocolSteps.StartInstances | vconsensus.go:30-154 | after a consensus round the instances are still numbered without gaps and their ranges still are what was read of the recorder |
| ProtocolSteps.CatchUpKeepsOk | comply.go:196-202 | the resend loop leaves a validator with nothing but blocks and signatures of the proposer |
| ProtocolSteps.CAKeepsOk | comply.go:183-291 | the CA handler keeps the validator's caches in agreement with the proposer's |
| OrderingAgreement.AgreementExactly | comply.go:22-46 | let the entries for a booth reach any set of servers, members or not: two different hashes can be certified for one chain, block ID and booth if and only if at least 2 * threshold - (servers reached) of them depart from the sign-once guard |
| OrderingAgreement.AgreementAmongMembers | mmu.go:518-523 | assuming that the entries reach the booth's n - 1 members only, as the broadcast sends them, that number is k+1-r |
| OrderingAgreement.OutsidersReplaceDepartures | mmu.go:218-223 | with nobody departing a conflict is possible if and only if the entries also reach at least k+1-r servers outside the booth |
| OrderingAgreement.QuorumOverlap | mmu.go:109-111 | two quorums share at least k+1-r members, and some two share no more |
| OrderingAgreement.SignOnce | comply.go:34-38 | a server that keeps the guard signs one hash per chain and block ID, over all booths |
| OrderingAgreement.ConflictNeedsDepartures | comply.go:34-38 | a conflict has every common signer of both quorums departing |
| OrderingAgreement.ConflictSchedule | mmu.go:281-299 | a delivery schedule that realises the conflict with just enough departures |
| OrderingAgreement.SignatureDoesNotBindBlockId | comply.go:119-131 | with nobody departing, some schedule makes a signature verify under a block ID it was not given for if and only if the booth has at least 3 servers, that is, needs shares at all |
| OrderingAgreement.SignatureBindsAtThreshold | comply.go:118-131 | for a booth of n servers, a verifying signature on a hash is one on the block ID if and only if fewer than the threshold signed the hash at all or at least that many did so under this ID |
| OrderingAgreement.SignatureBindsExactly | comply.go:119-131 | it is so for every number of shares if and only if whoever signed the hash did so under that ID |
| OrderingAgreement.OneIdBinds | comply.go:34-46 | a hash sent out under one block ID only is bound to it |
| OrderingReplies.OrderedAtMostOnce | vordering.go:283-341 | in every interleaving the list stays within the threshold, only the completing handler recovers, with exactly the first threshold shares, and the ID is recorded at most once |
| OrderingReplies.OrderedExactly | vordering.go:268-373 | once all handlers ended, the block is recorded and signed if and only if enough replies came and the first threshold ones are valid and of distinct signers |
| ConsensusReplies.ListsHoldDifferentReplies | vconsensus.go:195-239 | in every interleaving, and despite shared backing arrays, the stored list holds at most and every recovered list exactly threshold replies, no reply twice |
| ConsensusReplies.OneByOneRecoversOnce | vconsensus.go:189-252 | handlers that run one after the other recover exactly once, with the first threshold replies |
| ConsensusReplies.OneByOneIsARun | vconsensus.go:189-252 | running one after the other is one of the interleavings |
| ConsensusReplies.AloneAppends | vconsensus.go:212-231 | a handler that runs alone appends unless the list is full and recovers if it completes it |
| ConsensusReplies.RecoversExactly | vconsensus.go:195-231 | in every interleaving, once all handlers ended, those that went on to recovery are exactly those that read a list one reply short of the threshold |
| ConsensusReplies.RecoversOnceExactly | vconsensus.go:195-231 | exactly one handler recovers if and only if exactly one read such a list |
| ConsensusReplies.OverlapRecoversTwice | vconsensus.go:195-222 | two overlapping handlers both recover, whatever the spare capacity; with some, one recovers from a list without its own reply |
| ConsensusReplies.NobodyRecovers | vconsensus.go:195-222 | two overlapping handlers lose a reply, and nobody recovers although threshold replies were handled |
| ConsensusAgreement.CommitConflictExactly | comply.go:183-346 | an instance is announced under two total hashes, otherwise to each server alike and with whatever resent blocks, and commit messages reach some servers: with A the servers reached whose caches, resent blocks included, do not contradict it, and none holding a token at the start, both hashes can be certified if and only if A has at least t servers, t the threshold, and commit messages reach at least 2t less the size of A of them |
| ConsensusAgreement.AnnouncementsAloneConflict | comply.go:268-294 | without commit messages it takes 2t accepting servers |
| ConsensusAgreement.CachesDoNotHelp | comply.go:183-346 | with any announcements whatever, both hashes can be certified if and only if at least t servers are reached and commit messages reach at least 2t less the number of them; what they cache is of no account |
| ConsensusAgreement.RunSignsOnce | comply.go:268-285 | in every schedule a server that no commit message reaches gives at most one share for an instance, and holds its token from then on |
| ConsensusAgreement.ChecksAsAtStart | comply.go:196-249 | however often an instance is announced, the CA handler gets to its channel if and only if the server's cache at the start, resent blocks included, does not contradict the block hashes |
| ConsensusAgreement.ConflictSchedule | comply.go:276-331 | a schedule that certifies both hashes with just enough servers and commit messages |
| CommitHandshake.PassOnlyAfterMatch | comply.go:209-325 | in every interleaving there is one channel, and no more CB handlers pass than CA handlers found every cached block with the announced hash |
| CommitHandshake.NoPassWhenStopped | comply.go:219-223 | if the CA handlers stopped on a mismatch, no CB handler ever passes |
| CommitHandshake.StopsExactly | comply.go:204-223 | in every interleaving a CA handler stops without signing if and only if nothing was announced or one of its turns found a cached block with another hash |
| CommitHandshake.EveryMatchLetsOnePass | comply.go:268-325 | when nothing can move any more, as many CB handlers passed as there were CB handlers and matching CA handlers to pair |
| OrderHandshake.DeadlockExactly | comply.go:133-176 | with any number of blocks, their OA handlers and any OB handlers and resends on the one cmtSnapshot lock, some handler waits forever if and only if one that saw its block in ordSnapshot takes the free lock while cmtSnapshot lacks the block |
| OrderHandshake.FinishedExactly | comply.go:133-176 | when nothing can move any more all handlers of all blocks have ended if and only if no handler of any block did that |
| OrderHandshake.HoldsUpOthers | cache.go:26-29 | the OA handler of a block none of whose handlers locked too early can be kept from ending by another block's |
| OrderHandshake.ResendAverts | comply.go:143-155 | a schedule in which OB takes the lock between the two sections of OA and all handlers end, because a resend has stored the block |
| OrderHandshake.DeadlockLasts | comply.go:159-176 | no continuation ends a wait, or lets an OA handler of any block past its second section meanwhile |
| OrderHandshake.DeadlockSchedule | comply.go:34-81 | a schedule of one OA and one OB handler in which OB waits forever |
| IdRecorders.RangesConserveIds | vordering.go:17-35 | over any interleaving of Add and GetIDRange the returned ranges and the unread tail are what was recorded, in order |
| IdRecorders.EachIdInOneRange | vordering.go:17-35 | an ID recorded once is in exactly one range or unread |
| IdRecorders.IdRecorder.GetIDRange | vordering.go:23-35 | returns exactly the unread IDs and leaves nothing unread |
| IdRecorders.IdRecorder.Record | vordering.go:17-21 | adds the ID at the end |
| IdRecorders.ConsensusLoop | vconsensus.go:7-46 | the loop, with its never-reset waiting count, refines its specification |
| IdRecorders.LoopTerminates | vconsensus.go:30-46 | N ordered blocks take at most N + max(1, ConsWaitingSec) polls, after which the loop has given up |
| IdRecorders.InstanceIdsConsecutive | vconsensus.go:8-185 | instance IDs are consecutive, one per non-empty range; the loop stops early only by giving up |
| IdRecorders.InstancesCoverBlocks | vconsensus.go:30-46 | the instances cover, in order, exactly the blocks recorded by the polls made |
| IdRecorders.PolledExactly | vconsensus.go:30-46 | the k-th poll is made if and only if fewer than max(1, ConsWaitingSec) of those before it find nothing |
| IdRecorders.GivesUpExactly | vconsensus.go:32-46 | the loop gives up if and only if that many polls find nothing, and then at the poll that makes them so many |
| IdRecorders.CoversAllExactly | vconsensus.go:30-46 | every ordered block is in an instance if and only if none is recorded after that many empty polls; what is left out is what was recorded after the last poll |
| IdRecorders.LateBlockUncovered | vconsensus.go:30-46 | an input to the previous: a loop with ConsWaitingSec 1 that gives up before a block is ordered and so leaves it out |
| Batching.PeriodicKeepsQueue | vordering.go:164-235 | for every schedule of receives and ticks blocks plus buffer are the received transactions in order; blocks have 1..BatchSize entries; the buffer never exceeds BatchSize |
| Batching.TickCutsAll | vordering.go:191-235 | after any schedule, unless the worker has quit, a tick makes exactly one block of the whole buffer, none if it is empty |
| Batching.ReceiveTakesNext | vordering.go:169-190 | a receive takes the next transaction if and only if the buffer has room, the queue one more, and the worker has not quit |
| Batching.ClosedQuits | vordering.go:169-181 | a closed queue ends the worker once the buffer has room, and what is buffered stays unordered |
| Batching.CountsExactly | vordering.go:164-235 | how much is taken and buffered, and whether the worker quit, is a function of the events, the queue's length and BatchSize alone |
| Batching.TickOrdersAll | vordering.go:164-235 | after any schedule a tick leaves all transactions received so far, as counted from the events, in blocks in the order received |
| Batching.PeriodExactly | vordering.go:164-235 | between two ticks r receives take min(r, BatchSize, what is left) transactions, and the tick makes one block of just these |
| Batching.BatchKeepsQueue | vordering.go:237-264 | the size-driven mode cuts blocks of exactly BatchSize entries, losing and reordering nothing |
| Batching.ModesOrderTheSameQueue | vordering.go:54-264 | both modes flatten to prefixes of one queue |
| Batching.RepresentsMore | vordering.go:206-221 | a map filled under its own length lists its entries in the order they were put |
| Batching.ShuffleBuf.RunPeriodic | vordering.go:164-235 | the map-based buffer refines the time-driven queue; how much it took, what it buffers and whether it quit is as counted from the schedule |
| Batching.ShuffleBuf.RunBatch | vordering.go:237-264 | the map-based buffer refines the size-driven queue specification |
| Batching.ShuffleBuf.TickOnce | vordering.go:191-235 | a tick cuts the first min(counter, BatchSize) entries; with back-pressure the restored rest is empty |
| Batching.ShuffleBuf.SplitOff | vordering.go:206-221 | batch and rest are the front and the back of the buffer, renumbered from 0 |
| Batching.ShuffleBuf.MakeAndBroadcast | vordering.go:54-67 | the whole buffer goes into one block, an empty one into none |
| BoothRegistry.KeyInjectiveOnEqualWidth | mmu.go:210-216 | keys of IDs of one width determine the member list, its length included |
| BoothRegistry.KeyInjectiveBelow100 | mmu.go:210-216 | keys of sorted lists of one length with IDs below 100 determine the list |
| BoothRegistry.KeyInjectiveOnWidths | mmu.go:41-52 | keys determine lists whose IDs agree in width position by position |
| BoothRegistry.KeyCollides | mmu.go:41-52 | neither bound of the previous results can be dropped |
| BoothRegistry.ReadBack | mmu.go:41-52 | an ID is written with decimal digits, without leading zeros, and reads back as itself |
| BoothRegistry.LookupCorrectExactly | mmu.go:235-261 | every call gets a booth of exactly its members if and only if no two calls have different lists with one key |
| BoothRegistry.LookupAgreesWithScan | mmu.go:235-261 | with injective keys the registry is indistinguishable from a linear scan for the sorted member list |
| BoothRegistry.LookupIgnoresOrder | mmu.go:236-237 | permutations of one member list get one booth |
| BoothRegistry.EnterStable | mmu.go:246-258 | a lookup changes no stored booth, keeps IDs equal to positions, and returns a booth with the key asked for |
| BoothRegistry.LookupConfusesBooths | mmu.go:281-301 | a proposer that meets vehicles 1, 2, 34 and later 1, 2, 3, 4 uses one booth for both, that of the first |
| BoothRegistry.UsablePattern | mmu.go:281-301 | booths are asked for with the proposer and at least three vehicles |
| BoothRegistry.FirstUsableExactly | mmu.go:281-301 | the list used is the first of three vehicles or more, and there is none if and only if all are shorter |
| BoothRegistry.BoothManager.CheckExactMatch | mmu.go:235-261 | the registry updated in place is the specified lookup |
| BoothRegistry.BoothManager.GetBoothID | mmu.go:281-301 | the first long enough participant list is looked up |
| Reachability.Generate | artery-data/make-single-communication-data.py:4-40 | both tables as the data says, or nothing where a proposer's row is missing |
| Reachability.FillProposers | artery-data/make-single-communication-data.py:11-17 | each proposer's row under each time key is the one in the data |
| Reachability.FillValidators | artery-data/make-single-communication-data.py:26-37 | each validator's row lists, in proposer order, the proposers that reach it |
| Reachability.ReachingInOrder | artery-data/make-single-communication-data.py:26-37 | a validator's row has the proposers that reach it at strictly ascending positions of the proposer list, none left out |
| Reachability.HeadReachesFirst | artery-data/make-single-communication-data.py:26-37 | a row's head is the first proposer in the list that reaches the validator |
| Reachability.TablesSymmetric | artery-data/make-single-communication-data.py:14-37 | a proposer lists a validator exactly when the validator lists the proposer |
| Routing.SingleDelivery | mmu.go:458-481 | with one time key a message arrives unwrapped, directly or over one relay that is not the sender, and is dropped exactly when no proposer reaches the member |
| Routing.MessageFirstHop | mmu.go:458-481 | a message goes to the member itself if the sender reaches it, else wrapped to the first proposer that does, and nowhere if there is none |
| Routing.BroadcastDelivers | mmu.go:511-581 | a reachable booth member receives its message exactly once per listing, an unreachable one nothing, and nobody another member's |
| Routing.Broadcast | mmu.go:511-581 | the broadcast loop refines its specification |
| Routing.NewBoothSendsOnce | mmu.go:583-664 | with a duplicate-free list each member is sent one message, the new one if and only if it is a new member |
| Routing.BroadcastToNewBooth | mmu.go:583-664 | the nested broadcast loop refines its specification |
| Routing.SettlesOnRepeatedKey | connsprop.go:439-487 | however the time key changes, the journey ends once two successive decisions see one key |
| Routing.DetourComesBackExactly | connsprop.go:464-487 | a relay hands a detoured message back to its sender if and only if it does not reach the recipient at its time and the sender is first among those who do |
| Routing.JourneyExactly | connsprop.go:439-487 | under any sequence of time keys: delivered in i+1 hops, dropped, or under way, each if and only if the relays reach the recipient accordingly |
| Routing.ChangedKeyBouncesBack | connsprop.go:439-487 | tables and two keys under which a message comes back to its sender |
| Routing.DeliveredToRecipient | connsprop.go:464-487 | a wrapped message is delivered to nobody but its recipient |
| Routing.ReplyHandledOnce | handlers.go:89-116 | a reply is handled once, at the proposer owning its chain and as the original validator's, or lost exactly when the validator has no way out |
| Routing.ReplyFirstHop | mmu.go:483-508 | a reply goes out on the connection the message came on if its owner reaches the validator, else to the first proposer that does, and nowhere if there is none |
| Routing.RoundTrip | connsprop.go:209-227 | under one time key the reply to a delivered message is handled by the message's sender |
| Instances.CollectExactly | vconsensus.go:63-126 | over cached blocks the announced hashes are the cached ones, new members are listed once each and are those missing somewhere, and a block is resent exactly when some member is missing from its booth |
| Instances.CollectAtOnce | vconsensus.go:63-126 | a collection that other handlers overlap collects what it would at once from the cache with each block as it was at its own turn |
| Instances.CollectSkips | vconsensus.go:69-73 | blocks that are not cached leave no trace in what is collected |
| Instances.CollectStores | vconsensus.go:114-126 | the collection stores exactly the cached blocks, up to the first whose booth has no members |
| Instances.StoredByName | vconsensus.go:119-126 | under each booth name an instance stores exactly the blocks ordered there, each once, in range order |
| Instances.NamedInOrder | vconsensus.go:119-126 | those blocks are listed at strictly ascending positions of the range, and no position is left out |
| Instances.ScanMatches | comply.go:209-249 | a validator that agrees with the proposer stores what the proposer stores for the blocks it holds |
| Instances.ScanExactly | comply.go:209-249 | the scan goes through if and only if every cached block has the announced hash and a booth with members |
| Instances.ScanStores | comply.go:209-249 | a scan that goes through stores exactly the blocks held |
| Instances.ScanKeepsPrefix | comply.go:219-240 | a scan that does not keeps exactly what it stored before the held block that ended it |
| Instances.BagRemove | vconsensus.go:80-82 | in whatever order a block's entry map is enumerated, the list holds the same entries |
| Instances.BagMultiplicity | vconsensus.go:80-82 | the entries of a block as a bag: each as often as there are keys with it, and none besides |
| Instances.ListEntries | vconsensus.go:80-82 | the list has each entry exactly as many times as there are keys of the block with it, and as many entries as the block |
| Proposers.Proposer.ProposeBlock | vordering.go:69-141 | the block gets the next ID, and both caches gain the same snapshot of it under that ID and nothing else; the booth it returns is the registry's under its ID and has the key of the members asked for |
| Proposers.Proposer.HandleOBReply | vordering.go:268-341 | recovers if and only if the block is known, the list is one share short of its booth's threshold, and the list with the new share is valid and of distinct signers; the share is stored unless the list is full, and the block recorded if and only if recovered |
| Proposers.RepliesExactly | vordering.go:283-341 | in a booth of any size replies handled one after another leave the first threshold shares stored; the block is certified and recorded, once, if and only if those are so many, valid and of distinct signers |
| Proposers.OrderReplyExactly | vordering.go:283-341 | one reply: recovery if and only if the list is one short of the threshold and good with the new share, and recorded if and only if recovered |
| Proposers.Proposer.StoreOrderSig | vordering.go:360-369 | the block's commit snapshot gains the signature, no other snapshot changes, and the booth is found again under its ID |
| Proposers.Proposer.ConsensusRound | vconsensus.go:10-185 | one turn of the loop is the specified step; it leaves nothing unread and announces exactly the unread blocks under the next instance ID, or nothing |
| Proposers.Proposer.AnnounceRange | vconsensus.go:50-166 | an instance is stored, announced and numbered as specified, and abandoned at a booth without a name; the instance ID is used up if and only if it is announced |
| Proposers.AnnouncesUnlessNameless | vconsensus.go:114-117 | an instance is announced if and only if no cached block of the range has a booth without members, and otherwise it uses up no ID and announces nothing |
| Proposers.AnnouncedEntry | vconsensus.go:128-166 | announced, and stored under the next instance ID, are the range, the hashes of its cached blocks, and the hash of these |
| Proposers.AnnouncedContent | vconsensus.go:119-126 | the instance stores the content of the cached blocks of its range, and its booth if there is one |
| Proposers.Proposer.CollectRange | vconsensus.go:63-126 | the collection loop refines its specification |
| Proposers.AddNewMembers | vconsensus.go:86-97 | the nested loop adds exactly the missing members and reports whether there was one |
| Proposers.Proposer.ReadShares | vconsensus.go:195-216 | the read section: the stored list, or an empty one, of a known instance, unless it has as many shares as the threshold of its booth |
| Proposers.Proposer.WriteShares | vconsensus.go:218-247 | the write-back section stores the list read and the new share, whatever is stored by then; it recovers if and only if these are as many as the booth's threshold, valid and of distinct signers |
| Proposers.TurnsExactly | vconsensus.go:195-239 | in a commit booth of any size replies that are read and written back in turn leave the first threshold shares stored; the last of these gives the certificate if and only if they are valid and of distinct signers, and no other does |
| Proposers.WriteSharesExactly | vconsensus.go:218-239 | one write-back: which list is stored and exactly when it is recovered from |
| Proposers.Recover | tsigs.go:198-207 | share by share, recovery succeeds exactly on threshold valid shares of distinct signers |
| Validators.Validator.ValidateOA | comply.go:22-107 | a block ID that is new is cached on both sides, with the booth, entries and hash sent, and signed with its own share; a used one changes nothing and is not signed |
| Validators.Validator.ValidateOB | comply.go:109-181 | resent or not, a signature that verifies is stored with a block that was ordered here; for any other block only a resent entry that verifies is cached; nothing else changes |
| Validators.Validator.ValidateCA | comply.go:183-294 | it replies only if its job channel had room for a token, which is there afterwards, and every announced block that it holds has the announced hash; then it has stored the content of the held blocks and the total hash; all other instances are left alone |
| Validators.OtherInstancesStay | comply.go:186-194 | of the other instances the stores, booths and total hashes stay, signed or not |
| Validators.CheckStores | comply.go:204-269 | a signed instance has the announced total hash and the content of the held blocks, and the announced booth if any is held |
| Validators.CatchUpTwice | comply.go:196-202 | resending the same entries again changes no cached block |
| Validators.Validator.ScanRange | comply.go:209-249 | the scan loop refines its specification |
| Validators.Validator.ValidateCB | comply.go:301-346 | takes the token, commits if and only if the signature verifies, and leaves the cached blocks alone |
| Validators.CatchUpExactly | comply.go:196-202 | a block is cached after the resend loop if and only if it was before or a resent entry for it verifies |
| Signatures.RecoveredQuorum | tsigs.go:198-207 | a recovered signature names exactly threshold signers, each with a valid share in the list |
| Signatures.RecoveredVerifies | tsigs.go:198-211 | what is recovered verifies for its own hash and booth and for no others, and nothing verifies if recovery failed |

## Left out

- TCP connections, gob encoding, goroutine start-up, port arithmetic, configuration, logging and metrics.
- BLS and key files: only the contract of signing, recovery and verification is kept. A missing key file, which stops the program, is not modelled.
- Clocks: ticks, sleeps and time keys are arbitrary inputs. The formatting of time keys is not modelled.
- JSON loading: the participant lists and reachability data are inputs.
- prepareBooths, whose only call is commented out (connsprop.go:99).
- Start-time synchronisation between servers, a plain maximum.
- broadcastError and everything after a failed send; liveness of the network.
- Block IDs are unbounded here and 64-bit integers in the source.
- Protocol: a single blockchain ID, that of its proposer; a second proposer takes part as a relay only, in Routing.
- Protocol: each validator handler is one step, and so are an ordering reply up to the recording of the block and a whole consensus round; the interleavings inside the handlers are those of CommitHandshake, OrderHandshake and OrderingReplies, and Instances.CollectAtOnce says why a round may be taken at once. A CB handler is taken up once its wait is over. A CA handler that meets a full job channel waits there in the source and replies once a CB handler has taken the token; here it ends without a reply, and the reply comes of a later delivery of its message. ConsensusAgreement has that wait as it is.
- Protocol: the share lists of consensus replies are values; that they share backing arrays in the source is the subject of ConsensusReplies.
- Protocol: the proposer is correct and faulty validators only misuse their own keys; a proposer that announces different things to different members is the subject of OrderingAgreement and ConsensusAgreement.
- Protocol: messages travel straight to their receiver; the relay is the subject of Routing, whose phase field only selects a connection and is dropped.
- Reachability: nested maps are flattened to maps with pairs as keys.
- Batching: the goroutine's locks around the buffer, which a single worker never contends for.
- Routing.ReplyHandledOnce: the detour proposer is any that the tables name; that it is up is assumed.
