# Object transfer, references and framing of amber-store-iroh, verified

This project models how amber-store-iroh moves content-addressed trees between two stores
and how it publishes references to them, and proves what that is relied on for.

- **The have/want loop** (`Dag`, `Rounds`, `HonestRuns`, `Minimality`, `Dealing`, `WantSync`,
  `Receiving`, `WantFrames`). A receiver walks a Merkle graph top-down against a partial store, asks for
  what is missing over several channels, verifies and stores what comes back, and stops when
  nothing is wanted. A key is a value that carries its children, so every finite graph, with
  any sharing, is the unrolling of a root key. The loop is a program (`Receiving.Receive`)
  over a mutable store that others may add to at any moment; it is proved to produce a *run*,
  a sequence of rounds, and the main results are about all runs: safety against arbitrary
  peers and other writers, and termination, round bounds, minimality and resumption against
  peers that answer as `Send` does. Peers are arbitrary scripts of replies or `Send` itself.
- **Lock-step and the merge pipeline** (`LockStep`, `MergePipeline`). The same loop as
  interleaved steps: frames over unbuffered channels, and the decoders, the bounded merge
  channel, its closer and its single consumer within one round.
- **Framing** (`Cbor`, `Utf8`, `Messages`, `Frames`, `Packing`). Canonical CBOR (RFC 8949; section 3.9
  of RFC 7049), the message schema, the length-prefixed frames, and the chunk writer and pack
  reader, which undo each other under any split of writes and reads.
- **Pushes and pulls** (`Commits`, `PushServer`). Concurrent pushes as interleaved steps over
  references, objects and lazily created mutexes, each handler's transfer going round by round
  on the shared object store; and one handler as a program that calls the receiving loop, with
  what other handlers commit meanwhile as a parameter.
- **Remote-tracking references** (`Cluster`, `ClientCommands`). Any number of clients against
  one server, with lost replies and commands that die between any two steps; and the push and
  pull commands as programs.
- **Data streams** (`Transfers`, `AttachTable`, `RaceConnect`). Who owns an attached stream in
  every interleaving of create, attach, gather and drop; the table of transfers as a program;
  and the concurrent dial race.

Run `dafny verify dfyconfig.toml` to check everything.

## Where code and expectation differ

- A pack reader reports the plain end of stream also when the stream was cut between two
  frames without an end frame (`Packing.EofMeaning`, `Packing.EofWithoutEndFrame`). The loop
  stays safe because it checks what was delivered.
- The comment on `ReadMsg` says a stream cut mid-frame gives the unexpected-end error. Inside
  the payload that error is wrapped, and right after the header of a non-empty frame it is a
  wrapped plain end of stream (`Frames.TruncatedStream`).
- The statistics test expects a fresh sync to request exactly as many keys as are reachable.
  The loop does so if and only if no round asks for a key that is already there
  (`Minimality.RequestsCountMissing`): without capped rounds, if and only if whatever is shared
  across depths is there by the time its deeper use comes up
  (`Minimality.FreshSyncExactlyOnceIff`, `Minimality.DiamondIsOff`).
- The design document says wants are dealt round-robin; the code deals by measured throughput
  and by key sizes. The two agree when channels and keys are alike (`Dealing.AlikeInTurn`) and
  differ on three keys over two equal channels (`Dealing.UnlikeNotInTurn`).
- The design document says only missing objects cross the wire. A present object above a
  missing one is requested again, as the code's own comment says
  (`Minimality.HoleIsAskedAgain`). For every tree and store, without capped rounds, only
  missing objects are requested if and only if tree and store are settled
  (`Minimality.OnlyMissingIffSettled`); for trees without sharing, capped or not, if and only
  if the store starts without holes (`Minimality.OnlyMissingIffNoHoles`). Something at or below
  each requested key is always missing (`HonestRuns.RequestsAreMinimal`).
- A stream whose handler looked its transfer up before the drop, but sends after it, is
  accepted and never closed (`Transfers.LateAttachHappens`, `Transfers.LeakedForGood`). Every
  accepted stream is closed once if and only if no attach sat between its lookup and its send
  when the drop found the channel empty (`Transfers.AllClosedIffNoneLate`).
- A client that expected a sharding server puts the want frame it read back in front of the
  stream. That changes nothing for the reader (`Frames.ReplayedFrame`, `Frames.OwnFrameReplays`)
  unless the frame, written again, is over the frame limit; such a frame can be received
  (`Frames.UnreplayableFrame`), and then the push fails (`ClientCommands.RunSenders`).
- A stream that attaches too late, after a pull's handler has gathered, counts as a channel
  for the client but has no sending loop. The exchange cannot get stuck if and only if every
  channel of the receiver has a sender (`LockStep.NoDeadlockIff`).

## Model

| member | source | states |
|---|---|---|
| `Dag.CompleteIffNothingMissing` | wantsync/wantsync.go:34-39 | The completeness walk that decides pruning says yes exactly when no key reachable from the walked key is absent |
| `Dag.CompleteMonotone` | wantsync/wantsync.go:301 | A growing store never loses a complete subtree, so pruning stays valid while objects arrive |
| `Dag.DepthBound` | wantsync/wantsync.go:194-332 | No path below a key has more edges than its levels allow: with LongestPath, Levels is one more than the longest path |
| `Dag.LongestPath` | wantsync/wantsync.go:194-332 | Some path is as long as the levels allow |
| `Rounds.SplitWants` | wantsync/wantsync.go:25-32 | Request and carry together are the wants in order; the request is within the cap, full when anything is carried, and empty only when nothing is wanted |
| `Rounds.WantsMeaning` | wantsync/wantsync.go:34-65 | While others may go on storing: a wanted key had something at or below it missing when the round began, a frontier key with something missing by the end of the walks is wanted, each once, in the order of first appearance; with nobody else writing, wanted if and only if incomplete |
| `Rounds.WantListDistinct` | wantsync/wantsync.go:43-48 | No key is wanted twice in one round |
| `Rounds.NothingWantedIsWhole` | wantsync/wantsync.go:195-213 | When the walks find nothing wanting, the whole tree is there, the frontier leading to all that was missing |
| `Rounds.RoundKeepsCovered` | wantsync/wantsync.go:195-332 | The loop invariant: every missing key below the root is at or below a frontier key, kept by pruning, splitting, carrying and the delivery check, for any sender and whatever others store in the course of the round |
| `Rounds.RunSafety` | wantsync/wantsync.go:165-213 | Any run that ends without an error has the whole tree below the root in the store, with any sender and any other writers |
| `Rounds.ExactRoundPaths` | wantsync/wantsync.go:195-332 | In a round answered exactly, the requested keys leave the unrolled frontier and nothing enters it, re-requested shared keys and carry included |
| `Rounds.ExactKeySet` | wantsync/wantsync.go:286-301 | What an exact round adds to the store is what it asked for |
| `Rounds.ShardedRoundRefinesSingle` | wantsync/wantsync.go:215-303 | However wants are dealt and packs are merged, received keys and the multiset of next keys equal those of one pack, and so does the store when nobody else writes |
| `HonestRuns.RequestBudget` | wantsync/wantsync.go:187-332 | Everything requested so far and everything in the unrolled frontier fit in the unrolled tree: a key is requested at most once per path to it |
| `HonestRuns.RequestedReachable` | wantsync/wantsync.go:195-332 | Every requested or still pending key is reachable from the root |
| `HonestRuns.RequestsAreMinimal` | wantsync/wantsync.go:34-65 | A requested key is reachable, has something missing at or below it when its round starts, and is asked for once in that round, within the cap |
| `HonestRuns.StoreIsStartPlusRequested` | wantsync/wantsync.go:286-301 | The store then holds what it held and the requested keys, and nothing else unless others wrote it |
| `HonestRuns.ReceivedIsRequested` | wantsync/wantsync.go:286-304 | Honest senders deliver as many objects as were requested: the two counters agree after every round |
| `HonestRuns.FrontierDepth` | wantsync/wantsync.go:194-332 | Without capped rounds the frontier of round n holds only keys n edges below the root |
| `HonestRuns.FrontierLevels` | wantsync/wantsync.go:194-332 | Each uncapped round takes a level off the frontier and a capped one adds none |
| `HonestRuns.CappedRoundsAreFull` | wantsync/wantsync.go:19-32 | Each round asks for something and a capped one for a full frame, so capped rounds are paid for by requests |
| `HonestRuns.RoundsBound` | wantsync/wantsync.go:187-213 | Rounds that ask are at most the levels plus the capped rounds, and at most the size of the unrolled tree; with the final empty one, longest path plus 2 when uncapped |
| `HonestRuns.NoKeyRequestedTwice` | wantsync/wantsync.go:194-332 | Without sharing no key is requested twice in a run, whatever the store held |
| `HonestRuns.FinishedRunStore` | wantsync/wantsync.go:165-213 | A finished honest run leaves at least the old store plus the keys below the root, and exactly that when nobody else writes |
| `HonestRuns.FreshSyncRequestsEachOnce` | wantsync/loop_test.go:225-242 | From an empty store and without sharing, Requested = Received = number of reachable keys |
| `HonestRuns.ResyncMovesNothing` | wantsync/loop_test.go:250-260 | A sync of a complete tree has no round but the empty one, whoever the senders are |
| `HonestRuns.UnfinishedRunExtends` | wantsync/wantsync.go:194-332 | An honest run that still wants something can always take another round |
| `HonestRuns.HonestRunsComplete` | wantsync/wantsync.go:165-213 | Every honest run, from any partial store and so also after an abort, can be carried to its end, and then the tree is whole |
| `Minimality.RunTracksLevels` | wantsync/wantsync.go:194-332 | Without capped rounds, round n begins with exactly the old store and what sits nearer than n edges, and looks at every key n edges down that is not whole |
| `Minimality.RoundRequests` | wantsync/wantsync.go:40-65 | Without capped rounds, round n requests exactly the keys n edges down with something at or below them that was not there at the start and is nowhere nearer to the root |
| `Minimality.OnlyMissingIffSettled` | docs/superpowers/specs/2026-07-21-amber-store-iroh-design.md:152-153 | For every tree and store, while no round is capped, only missing objects cross the wire if and only if, whenever a key is there by the time a depth it sits at is looked at, so is everything below it |
| `Minimality.OnlyMissingIffNoHoles` | docs/superpowers/specs/2026-07-21-amber-store-iroh-design.md:152-153 | For a tree without sharing, capped rounds or not, only missing objects cross the wire if and only if the store at the start has nothing of the tree without all below it |
| `Minimality.HoleIsAskedAgain` | docs/superpowers/specs/2026-07-21-amber-store-iroh-design.md:152-153 | Into a store that holds a parent without its child every sync asks for the parent again, and there is such a sync |
| `Minimality.RequestsCountMissing` | wantsync/loop_test.go:225-242 | In any sync of any tree from any store, capped or not, as many keys are requested as are missing below the root if and only if no round asks for a key that is already there; never fewer |
| `Minimality.FreshSyncExactlyOnceIff` | wantsync/loop_test.go:225-242 | Without capped rounds a fresh sync requests, and receives, as many keys as are reachable if and only if the tree is settled for the empty store |
| `Minimality.DiamondIsOff` | wantsync/loop_test.go:225-242 | A four-key graph with a child shared across two depths: every fresh sync of it requests more keys than there are, and there is one |
| `Minimality.OneParent` | wantsync/wantsync.go:194-332 | A key below the root with two parents has two paths to it |
| `Minimality.RequestsClimb` | wantsync/wantsync.go:195-332 | Without sharing, whatever lies between a key below the root and a requested key under it is requested too |
| `Dealing.Lowest` | wantsync/wantsync.go:370-375 | The channel chosen is the first with the lowest assigned-to-weight ratio, compared by cross-multiplication |
| `Dealing.DealWants` | wantsync/wantsync.go:336-384 | The shards are those of a deal in which each want goes to the channel least loaded relative to what it moved, or to 1 when it moved less, ties to the lower index; a single channel gets all |
| `Dealing.FairDealUnique` | wantsync/wantsync.go:349-353 | The rule settles every owner: two fair deals of the same wants agree |
| `Dealing.BalancedFromAbove` | wantsync/wantsync.go:354-384 | Of every channel: weight sum times its bytes without its last key is at most its weight times the total |
| `Dealing.BalancedFromBelow` | wantsync/wantsync.go:354-384 | Of every channel: its weight times the total without the channels' last keys is at most the weight sum times its bytes |
| `Dealing.ShardsPartition` | wantsync/wantsync.go:354-384 | All shards together hold every key exactly as often as it was wanted |
| `Dealing.AlikeInTurn` | docs/superpowers/specs/2026-07-21-amber-store-iroh-design.md:182-185 | When all channels weigh the same and all keys are of one size, dealing by throughput is dealing round-robin |
| `Dealing.UnlikeNotInTurn` | docs/superpowers/specs/2026-07-21-amber-store-iroh-design.md:182-185 | With a long key before two short ones the deal is not round-robin |
| `Dealing.IdleChannelKeepsAProbe` | wantsync/wantsync.go:336-367 | Beside a channel that moved 1000 bytes, an idle one gets one of the first three alike wants and no more: a probe-sized share, never the favourite |
| `WantSync.Store.CheckComplete` | wantsync/wantsync.go:56-62 | While others may go on storing: what the walk finds whole is whole at its end and can be read throughout, what it misses is below the key and was missing at its start, and a fault is one at or below the key |
| `WantSync.Store.Put` | wantsync/wantsync.go:301 | An object is stored exactly when its bytes match its key and the store works; otherwise this writer stores nothing and the error names the object or the key |
| `WantSync.Wants` | wantsync/wantsync.go:34-65 | The frontier keys judged wanting, each judged at some moment of the walk while others may go on storing; a store fault is one on a key at or below a frontier key that the walk could get to, and without one no frontier key was unreadable, nor anything below one that was found whole |
| `WantSync.CheckDelivered` | wantsync/wantsync.go:386-409 | Fails exactly when a requested key did not arrive, reporting how many and the first |
| `WantSync.UndeliveredNone` | wantsync/wantsync.go:395-404 | The count of missing keys is zero exactly when all arrived |
| `WantSync.UndeliveredCount` | wantsync/wantsync.go:395-404 | The count of missing keys is the number of positions in the request whose key did not arrive |
| `WantSync.DedupeKeys` | wantsync/wantsync.go:471-484 | In place, the first-seen elements move to the front in order |
| `WantSync.DedupeMeaning` | wantsync/wantsync.go:471-484 | Dropping repeats keeps every key, once, in order of first use |
| `WantSync.Answer` | wantsync/wantsync.go:430-466 | A pack of exactly the requested objects, once each and verified; an error frame exactly when one cannot be read |
| `WantSync.Send` | wantsync/wantsync.go:411-469 | One answer per non-empty want frame, until an empty frame, a frame out of place, bad keys, an unreadable object, a pack that cannot be written or the end of the stream ends the loop, each with its own verdict |
| `WantSync.EndsWellIff` | wantsync/wantsync.go:411-469 | The sending loop ends without an error exactly on an empty want frame it got to with every pack before it sent in full |
| `WantSync.SendShards` | wantsync/wantsync.go:225-234 | Each channel with a non-empty shard gets one want frame and no other channel gets any; the round ends at the first channel whose frame cannot be written, and at none when all can |
| `WantSync.Collect` | wantsync/wantsync.go:236-303 | Under any interleaving of decoders: received, next and the store agree with the objects consumed, others' writes aside; a write fails exactly when some pack holds an object that does not verify or cannot be stored, and otherwise these are all objects of all packs; each decoder saw its pack's end, or was stopped after a failed write at one of its objects |
| `Receiving.HonestPacksAreExact` | wantsync/wantsync.go:215-303 | Complete packs from honest peers on all channels in use deliver exactly what the round asked for |
| `Receiving.PacksMatchShards` | wantsync/wantsync.go:215-303 | Packs that answer their shards hold each key as often as the shards do |
| `Receiving.DecodeErrors` | wantsync/wantsync.go:276-323 | No error exactly when every pack ended well; an error frame inside a pack wins over everything; all other failures are joined, an error frame found while draining among them |
| `Receiving.OneRound` | wantsync/wantsync.go:195-332 | A round that succeeds is a round of the loop with wants dealt fairly by what each channel moved, took in all that came back and saw every pack end, whatever the peers and other writers do; if no arbitrary peer acted it is exact; peers that hold the wants make it succeed. A round that fails fails for what happened on its channels: the first frame that could not be written; with everything stored, the first error frame inside a pack, or else all packs that broke off or ended with an error frame, or else the first want no pack held and how many there are; with an object that cannot be stored, that object, unless a decoder that ran to its end found one of these |
| `Receiving.Finish` | wantsync/wantsync.go:205-213 | Every channel gets one empty want frame |
| `Receiving.Receive` | wantsync/wantsync.go:174-334 | On a store others may write to at any moment: success means the whole tree against any peers; the counters are those of the run; each channel was sent its non-empty shards, dealt by the last round's throughput, then one empty frame; a failure is explained by its last round: a store fault below the frontier, a final frame that could not be written, or that round's own failure; peers that hold the tree always make it succeed, within the round bound, with Received = Requested, and without other writers both equal the number of reachable keys from an empty store without sharing |
| `Receiving.LackingSender` | wantsync/loop_test.go:265-277 | A sender that lacks the object it is first asked for makes the transfer fail with that sender's own error |
| `Receiving.FrontierShrinks` | wantsync/wantsync.go:187-333 | Every round without arbitrary peers makes the unrolled frontier smaller |
| `Receiving.SenderEndsWell` | wantsync/wantsync.go:205-234 | The sending loop on a channel of a successful transfer, with the tree in its store and writable packs, answers every frame but the last with a complete pack, ends on the last, and reports no error |
| `WantFrames.EveryWantFrameFits` | wantsync/wantsync.go:19-32 | No want frame of a successful run is empty or refused for its size, with keys of up to 254 bytes |
| `LockStep.TranscriptShape` | wantsync/wantsync.go:205-234 | A channel between rounds carried whole (non-empty want frame, pack) exchanges; inside a pack, one is under way |
| `LockStep.EndedTranscript` | wantsync/wantsync.go:205-210 | An ended channel carried whole exchanges and then one empty want frame |
| `LockStep.StepKeepsInv` | wantsync/wantsync.go:205-278 | Every frame exchanged keeps receiver, senders and transcripts in step |
| `LockStep.NoDeadlockIff` | wantsync/wantsync.go:411-469 | Over unbuffered channels no reachable state is stuck before the receiver has returned if and only if every channel it uses has a sender |
| `LockStep.LockStepHolds` | wantsync/wantsync.go:273-278 | With any numbers of channels and senders: no sender ends early; channels are frame-aligned between rounds; when the receiver returns every channel it used had a sender and is over, and all senders have returned if and only if both sides used the same channels |
| `LockStep.EveryRoundEnds` | wantsync/wantsync.go:215-303 | Once a round or the end is decided on, every step brings it nearer |
| `MergePipeline.StepKeepsOrder` | wantsync/wantsync.go:255-284 | What a decoder put on the merge channel, consumed or not, is the beginning of its pack in order, whatever step is taken |
| `MergePipeline.ConsumedExactlyOnce` | wantsync/wantsync.go:236-303 | No decoder ever sends on the closed channel; when the consumer saw the end, each object of each pack was consumed exactly once |
| `MergePipeline.NoDeadlockWithoutGivingUp` | wantsync/wantsync.go:267-300 | While the consumer pulls, somebody can always move |
| `MergePipeline.EveryRunJoins` | wantsync/wantsync.go:245-303 | Every run is finite and one that can go no further has joined, with all decoders gone: an early stop leaves nobody blocked |
| `Cbor.HeadRoundTrip` | protocol/protocol.go:105-120 | Heads in shortest form decode to major type and argument, for all 64-bit arguments |
| `Cbor.NoShorterHead` | protocol/protocol.go:105-120 | No bytes that decode to a head are fewer than the head written for the same type and argument |
| `Cbor.HeadBegins` | protocol/protocol.go:105-120 | The first byte holds the major type above and the argument, or its width in bytes, below |
| `Cbor.EncodingBegins` | protocol/protocol.go:105-120 | Each kind of value goes out under its own major type, with its value or its length as argument and, for strings, its content behind the head |
| `Cbor.BigEndianDigit` | protocol/protocol.go:132-133 | Byte i of a k-byte number is its digit k - 1 - i in base 256: the most significant byte comes first |
| `Cbor.FromBigEndianDigit` | protocol/protocol.go:151 | A number read has the bytes as its digits, the first weighing most |
| `Cbor.DecodeEncode` | protocol/protocol.go:105-120 | Decoding a canonical encoding returns the value, or fails exactly when an array or map anywhere in it is over the limit |
| `Cbor.DecodeAcceptable` | protocol/protocol.go:105-120 | Nothing over the limit is ever decoded |
| `Cbor.EncodingPrefixFree` | protocol/protocol.go:105-120 | Different values have encodings of which neither begins the other |
| `Cbor.SmallIsEncodable` | protocol/protocol.go:124-132 | A value whose encoding is representable has nothing in it that is too long |
| `Utf8.ValidUtf8Iff` | protocol/protocol.go:105-120 | Text is accepted exactly when it is the encoding of a sequence of Unicode scalar values, each in the shortest form: no surrogates, nothing above U+10FFFF, nothing overlong |
| `Messages.EntriesAscend` | protocol/protocol.go:79-103 | Struct fields go out under ascending integer keys, each once |
| `Messages.LookupEntries` | protocol/protocol.go:79-103 | Under each integer key a decoder finds that field, or nothing when it was left out |
| `Messages.ReadersInvertWriters` | protocol/protocol.go:79-120 | Each scalar field's reader accepts exactly what its writer writes, and null for the empty value |
| `Messages.NullIsAbsent` | protocol/protocol.go:79-120 | Null under a key reads like no entry |
| `Messages.PlainKeys` | protocol/protocol.go:79-103 | A field that is no list goes out under the integer key of its tag, and under no key when it is empty and optional |
| `Messages.ListKeys` | protocol/protocol.go:79-103 | A list field goes out under the integer key of its tag, its elements in order, and under none when it is empty |
| `Messages.RefInfoRoundTrip` | protocol/protocol.go:57-63 | A listed reference survives, null key and empty user included, exactly when its text is UTF-8 |
| `Messages.RefInfoKeys` | protocol/protocol.go:57-63 | Name, key, time and user of a listed reference go out under 0, 1, 2 and 3, the user only when there is one |
| `Messages.EndpointRoundTrip` | protocol/protocol.go:65-76 | A data endpoint record survives exactly when its addresses are UTF-8 |
| `Messages.EndpointKeys` | protocol/protocol.go:65-76 | Identity and addresses of a data endpoint go out under 0 and 1, the addresses only when there are any |
| `Messages.MsgAcceptable` | protocol/protocol.go:79-103 | The bytes of a message are decodable exactly when its lists are within the limit |
| `Messages.UnmarshalMarshal` | protocol/protocol.go:65-120 | A reader that knows only some integer keys gets exactly the message projected onto them; it fails exactly when a list anywhere is over the limit or text it knows is not UTF-8, and skips what it does not know |
| `Messages.MsgRoundTrip` | protocol/protocol.go:79-120 | Decoding an encoded message is the identity on well-formed messages and an error on all others |
| `Messages.TrailingBytes` | protocol/protocol.go:105-120 | Anything behind a message in its frame makes the frame malformed |
| `Messages.MarshalInjective` | protocol/protocol.go:79-120 | Different messages have different encodings |
| `Messages.OlderWriter` | protocol/protocol.go:65-72 | A writer whose struct has only some of the fields sends, byte for byte, the message with the others empty, and a newer reader takes it as that |
| `Messages.UnmarshalWellFormed` | protocol/protocol.go:141-164 | Whatever a reader that knows every field accepts has UTF-8 text and lists within the limit |
| `Frames.WriteMsg` | protocol/protocol.go:122-139 | Writes the length in four bytes, the most significant first, and the encoding behind it; refuses exactly what is over the limit, before writing anything; a write that breaks off leaves a cut of the frame |
| `Frames.ReadFull` | protocol/protocol.go:145 | Exactly n bytes over however many reads; the bare end of stream only when nothing was read |
| `Frames.ReadMsg` | protocol/protocol.go:141-164 | Over a stream that delivers in any portions, reads what the frame grammar says, with its errors; a length over the limit is refused whatever follows, and a payload that is there is exactly the bytes the length names |
| `Frames.FrameBytes` | protocol/protocol.go:130-139 | The first four bytes of a frame are its payload's length, the most significant first, and the payload is the encoding |
| `Frames.ParseByHeader` | protocol/protocol.go:143-164 | The number in the first four bytes decides: over the limit it is refused, with fewer bytes behind it the frame is short, and otherwise exactly that many are decoded |
| `Frames.FrameRoundTrip` | protocol/protocol.go:122-164 | A written frame reads back as its message and leaves the rest of the stream |
| `Frames.StreamRoundTrip` | protocol/protocol.go:122-164 | Repeated reads over concatenated frames return the messages in order |
| `Frames.TruncatedStream` | protocol/protocol.go:141-164 | A stream cut anywhere yields the whole frames before the cut and an error determined by the cut's place in the next frame |
| `Frames.BareEofOnlyAtBoundary` | protocol/protocol.go:141-150 | The bare end of stream is reported exactly when the cut falls between two frames |
| `Frames.ReplayedFrame` | cmd/amber/push.go:183-192 | A frame that was read is well-formed, and unless the frame writer refuses it for its size, putting it back in front of the stream changes nothing for the next reader |
| `Frames.OwnFrameReplays` | cmd/amber/push.go:183-192 | A want frame of up to a full round of keys, as this program writes it, is put back byte for byte |
| `Frames.UnreplayableFrame` | cmd/amber/push.go:183-192 | A want frame can be received that the frame writer refuses to put back |
| `Frames.WantsFrameFits` | wantsync/wantsync.go:19-23 | A want frame with a full round of keys of up to 254 bytes is within the frame limit and decodes |
| `Frames.DataFrameFits` | protocol/protocol.go:20-25 | A data frame with a full chunk is within the frame limit and decodes |
| `Packing.ChunksMeaning` | protocol/pack.go:33-61 | The chunks are the bytes; all but a non-empty last one are exactly ChunkSize; there are ceil(n / ChunkSize) |
| `Packing.PackFramesFit` | protocol/pack.go:54-68 | The frame writer takes every frame of every pack |
| `Packing.PackRoundTrip` | protocol/pack.go:33-141 | Reading a pack yields exactly the bytes written and stops right behind its end frame |
| `Packing.UnpackMeaning` | protocol/pack.go:112-141 | What a reader delivers and how it ends is decided by the messages up to the first that carries no data |
| `Packing.EofMeaning` | protocol/pack.go:119-132 | A reader reports the end if and only if the data is followed by the end frame, or by a stream cut between two frames |
| `Packing.EofWithoutEndFrame` | protocol/pack.go:119-124 | For every pack of more than one chunk there is a cut with data missing that a reader reports as the end |
| `Packing.CutPack` | protocol/pack.go:112-141 | A cut pack never finishes: the reader delivers the whole frames before the cut and the error of the cut's place |
| `Packing.PackReader.constructor` | protocol/pack.go:101-110 | A new reader has everything on the stream before it |
| `Packing.PackReader.Read` | protocol/pack.go:112-141 | For any buffer size: some of the pending bytes, or their end; ends repeat for good; nothing is lost, doubled or read past the end frame |
| `Packing.Drain` | wantsync/wantsync.go:273-278 | Reading in pieces of any sizes to the end yields all pending bytes and leaves the stream behind the end frame |
| `Packing.ChunkWriter.Write` | protocol/pack.go:39-52 | For any split into writes the stream holds the full chunks so far and the buffer the rest; a failed write leaves a proper cut of every pack that begins with these bytes |
| `Packing.ChunkWriter.Flush` | protocol/pack.go:54-61 | The buffer goes out as one frame, or nothing does when it is empty; it is empty afterwards even on failure |
| `Packing.ChunkWriter.Finish` | protocol/pack.go:63-68 | The stream then holds the whole pack of everything written |
| `Packing.SendPack` | protocol/pack.go:76-94 | All records as one pack; after an unreadable record only a proper cut of what could be read, which no reader takes for finished |
| `Commits.StepKeepsInv` | server/server.go:300-358 | Every step of any handler keeps mutexes, log, checks, replies and trees sound |
| `Commits.TransferStepTree` | server/server.go:314-320 | A handler's transfer begins with everything missing at or below its root, keeps its frontier leading to all that is missing while all handlers store, and is through when nothing is wanting: then its tree is whole |
| `Commits.RunDrivesHandler` | wantsync/wantsync.go:174-334 | Every run of the receiving loop that ends, other writers included, is a way for its handler to get through its transfer |
| `Commits.StepKeepsChecks` | server/server.go:321-347 | A check made under the lock stays good across other handlers' steps until the handler writes |
| `Commits.OneInside` | server/server.go:195-205 | With lazily created mutexes, at most one handler of a name is past the lock |
| `Commits.CommitsChain` | server/server.go:321-347 | In every run a name's commits form one chain: each starts from what the one before wrote, a compare-and-swap from exactly the expected value, and the reference holds the last |
| `Commits.RefsAreWhole` | server/server.go:314-347 | At every moment every reference points at a tree that is whole in the shared object store, derived from the rounds of each handler's transfer and not assumed of its end |
| `Commits.RepliesAreTrue` | server/server.go:347-358 | An acknowledged push was committed exactly once, a refused or failed one never, and a refusal names an unexpected value |
| `Commits.AcknowledgedIffSent` | server/server.go:353-357 | In every run, a push counts as acknowledged exactly when its acknowledgement was sent, and as silently committed exactly when that failed |
| `Commits.EarlyCheckDecides` | server/server.go:311-315 | A push whose precondition fails on arrival is told what stands and is done; any other goes into its transfer |
| `Commits.RecheckDecides` | server/server.go:324-331 | Under the lock, a push whose precondition holds can write, and one whose precondition fails leaves with the value that stands |
| `Commits.DoneIsFinal` | server/server.go:300-358 | A handler that has answered never moves again: one refused at the door never transfers, locks or writes |
| `Commits.StepsRunOut` | server/server.go:300-358 | Apart from the rounds of its transfer a handler takes at most eight steps, and no step changes another handler |
| `Commits.NoDeadlock` | server/server.go:195-205 | Unless all unfinished handlers are transferring, some handler can move without failing |
| `Cluster.TrackingInjective` | cmd/amber/dial.go:45-49 | A tracking name determines server and name, server identities having no slash |
| `Cluster.SlashesWouldCollide` | cmd/amber/dial.go:45-49 | With a slash in an identity two servers would share a tracking name |
| `Cluster.TrackingIsReserved` | cmd/amber/ref.go:13-16 | Every tracking name has the prefix that commands which set references refuse |
| `Cluster.Resolved` | cmd/amber/push.go:75 | The local reference a push takes its root from is the name up to its first @ |
| `Cluster.StepKeepsTracks` | cmd/amber/pull.go:126-135 | Every step of any client, other servers' tracking writes and removals included, keeps tracking references to values their client has seen |
| `Cluster.TrackingIsHistory` | cmd/amber/push.go:131-152 | In every run every tracking reference holds a value its client pulled or pushed, from the server's history of that name |
| `Cluster.NothingUnseenIsReplaced` | cmd/amber/push.go:80-123 | In every run, the commit of a push that was started without force carries its precondition and replaces only absence or a value its client had pulled or pushed by the time the request went out, whatever replies were lost and wherever commands died |
| `Cluster.ForcedIsUnchecked` | cmd/amber/push.go:123 | The commit of a push started with force carries no precondition, and it is of the name it was started with |
| `Cluster.AcceptedIffUpToDate` | cmd/amber/push.go:80-123 | A push without force that arrives meets its precondition if and only if the tracking reference it started from agrees with what the server then holds, absence included |
| `Cluster.PushAfterPush` | cmd/amber/push.go:144-152 | Once an acknowledged push is recorded, the tracking reference is what the push put on the server |
| `Cluster.PushAfterPull` | cmd/amber/pull.go:130-135 | Once a pull is stored, the tracking reference is what was pulled |
| `Cluster.PulledIsStored` | cmd/amber/pull.go:126-132 | A pull's local name holds what was pulled, and no tracking reference changes with it |
| `Transfers.StepKeepsInv` | server/server.go:72-167 | Every step keeps each stream held once or closed once |
| `Transfers.SingleOwner` | server/server.go:94-167 | A stream is closed at most once, has at most one owner, none once closed and one until then |
| `Transfers.GatheredBound` | server/server.go:114-133 | In every phase of every run a transfer created for DataConns streams has gathered at most min(DataConns, 16), and its channel holds at most 16 |
| `Transfers.GathersUpToBound` | server/server.go:114-133 | A transfer of a channel with streams left and fewer than min(DataConns, 16) gathered can take another |
| `Transfers.AllGathered` | server/server.go:114-133 | With min(DataConns, 16) streams queued, gathering them all leads to a transfer that has exactly these |
| `Transfers.ReleasedClosesAll` | server/server.go:412-422 | After release the streams handed over are closed exactly once, except those in the dead channel, which are open |
| `Transfers.AllClosedIffNoneLate` | server/server.go:94-167 | After release, with no attach on its way any more, every accepted stream was closed once if and only if no attach sat between lookup and send when the drop found the channel empty |
| `Transfers.LateOfferLeaks` | server/server.go:96-110 | A send after the release is accepted |
| `Transfers.LeakedForGood` | server/server.go:151-167 | A stream left in a released transfer's channel is never closed |
| `Transfers.LateAttachHappens` | server/server.go:96-110 | A run in which an accepted stream is left open after release |
| `AttachTable.Table.Create` | server/server.go:80-92 | A token gets an empty channel of its own |
| `AttachTable.Table.Attach` | server/server.go:96-110 | Ownership moves exactly when the token is known and its channel has room |
| `AttachTable.Table.Gather` | server/server.go:114-133 | Streams in order of arrival, those that attach while it waits included, at most n, the rest left in the channel |
| `AttachTable.Table.Drop` | server/server.go:151-167 | The token is gone and each stream left was closed once |
| `PushServer.Server.CheckCAS` | server/server.go:424-453 | Passes exactly when the current value is the expected one, absence included; otherwise the mismatch with the current value, or an internal error |
| `PushServer.Server.LockRef` | server/server.go:192-205 | One mutex per name, created once and kept, and waited for |
| `PushServer.Server.HandlePush` | server/server.go:300-358 | Committed means precondition met early and at the write, tree whole and reference written, with guard and access hook told, and TOK if it can still be written; otherwise nothing was written, and the reply says why: bad-request for a bad name or root, the current value for a failed precondition at the door and again under the lock, internal for an unreadable record, a guard or a store that refuses, and for a failed transfer its own reason unless the peer reported it; a push refused at the door transfers nothing; a sound push whose client has the tree is committed |
| `PushServer.FailLocal` | server/server.go:254-263 | An error the peer reported, inside a pack, behind one or on its own, gets no reply; every other transfer error gets internal |
| `PushServer.Server.Publish` | server/server.go:334-347 | The reference is written between the guard's prepare and its commit, or aborted; the guard is left balanced |
| `PushServer.Server.Commit` | server/server.go:321-347 | Under the name's mutex: checks again, writes, tells the collector, and leaves the mutex free |
| `PushServer.Server.HandlePull` | server/server.go:455-515 | Unknown references are refused; otherwise, if the record could be sent, every channel is served, a client that asks only for what is below the record never meets an unreadable object, and a peer's own error is not echoed |
| `ClientCommands.RunSenders` | cmd/amber/push.go:164-212 | With any connection count and any server: only an accepting server gets the extra channels used, and otherwise the outcome is that of the plain sending loop on the whole control stream, the replayed first frame included, unless that frame, written again, is over the limit |
| `ClientCommands.OwnFrameIsReplayed` | cmd/amber/push.go:183-192 | A first want frame that this program's receiving loop wrote is always replayed |
| `ClientCommands.Client.Prepare` | cmd/amber/push.go:65-123 | A push asks for the root of the local reference, with a precondition exactly when it is not forced, expecting the tracked value or absence; it can be asked exactly when the name is valid and not reserved, the reference is there and both records can be read |
| `ClientCommands.Client.Push` | cmd/amber/push.go:118-152 | Only an acknowledged push writes, and only the tracking reference, to the root it pushed; the first failing channel decides the outcome, and with none the server's last word does: an acknowledged push ends well exactly when the tracking reference can be written |
| `ClientCommands.Client.Pull` | cmd/amber/pull.go:53-135 | Success means the tree is whole and both names hold the record; a failure leaves nothing written, or the local name alone, and its reason is the name, the server's answer, what made the transfer fail or the name that cannot be written; a server with the reference and senders with the tree make it succeed |
| `ClientCommands.PullSession` | cmd/amber/pull.go:53-135 | A pull of any reference from a server all of whose references are whole, over any number of channels served from its store, succeeds: the client has the whole tree and both names |
| `ClientCommands.TransferBothEnds` | server/server.go:455-515 | What the receiving loop of a pull sent is what the handler's sending loops answer, and unless a pack cannot be written each of them answers all of it and ends without an error |
| `RaceConnect.Race` | cmd/amber/dial.go:302-353 | The first success is kept if there is one, all other connections are closed once each, and every result is taken |

## Left out

- Minimality.OnlyMissingIffSettled: covers runs in which no round exceeds the cap, as do `Minimality.RunTracksLevels`, `Minimality.RoundRequests` and `Minimality.FreshSyncExactlyOnceIff`; with carried wants the depth a key is looked at no longer equals its round. `Minimality.RequestsCountMissing` is the statement for all runs, in terms of the run.
- HonestRuns.FrontierDepth: covers runs in which no round exceeds the cap; `HonestRuns.FrontierLevels` is the statement for all runs.
- Dealing.DealWants: the program compares ratios in `float64`; the model compares them exactly by integer cross-multiplication, so roundings at ties are not modelled.
- Dealing.Lowest: exact ratios, as for `Dealing.DealWants`.
- WantSync.Answer: the order in which records lie on disk is arbitrary, record framing and checksums are part of whether an object can be read, and a sender's store is read as it was when its loop began.
- WantSync.Collect: the consumer stores objects one by one, where the store's writer works in parallel batches; the merge channel and its capacity are in `MergePipeline`.
- Receiving.Receive: the bytes read off the wire grow by arbitrary amounts per round; they only steer the weights. Its peers act only when written to.
- Cbor.DecodeEncode: the decoder covers the definite-length items the schema uses; indefinite lengths, tags, floats, duplicate map keys, arrays of numbers read into byte strings and the nesting limit of 32 are not part of this model, and no message of the schema nests that deep.
- Frames.ReadMsg: the stream delivers what was written; reading past it is the end of the stream, never a transport error of another kind.
- LockStep.NoDeadlockIff: every sender can read what it is asked for and no transport fails; failures end the loop on both sides instead.
- Commits.NoDeadlock: a transfer may last for ever, so handlers in transfer are not asked to move.
- PushServer.Server.HandlePush: the channels are given, and setting them up does not fail; others' reference writes are seen at once, when the lock is taken, this handler not reading references in between; single steps of all handlers are in `Commits`.
- PushServer.Server.HandlePull: the channels are given; how they are gathered is in `Transfers` and `AttachTable`.
- ClientCommands.Client.Pull: one server answer and one command at a time; interleavings and crashes are in `Cluster`.
- RaceConnect.Race: cancellation only decides which results come in, and results come in any order.
- Transfers: tokens are unique; a collision of random tokens is not part of this model.
- Keys are ideal hashes: two keys are equal exactly when they commit to the same content. Hashing, compression and the object and record formats are not part of this model.
- The object and reference stores are contracts: verified writes, atomic reference writes, a grow-only object store. Garbage collection appears only as the guard's prepare, commit and abort and the access hook.
- Name validation and key parsing appear as flags of a push request.
- Reference listing, pinning, progress reporting, logging, the command line, endpoints, discovery, relays, `attachExtras` and wall-clock behaviour (the attach deadline is an arbitrary stop).
- Clients' own object stores in `Cluster`: a pull's tree arrives as `Receiving.Receive` promises.
