# Librevault: a verified model of the daemon's core

Librevault synchronises folders between peers. This project models the parts of the daemon that carry
state or transform data, and proves what they keep over all inputs and all runs:

- **The peer link** (`PeerLink.dfy`, `P2PFolder.dfy`): the handshake and the four choke/interest flags of
  `P2PFolder`. Two ends and the two FIFO channels between them form a transition system whose steps are
  connecting, delivering the head message, changing a flag, sending, broadcasting and closing.
  `Hostile.dfy` adds forged messages, `Uploader.dfy` the choking policy.
- **Membership** (`Membership.dfy`, `Network.dfy`): `FolderGroup::attach` and `detach` with the two lookup
  sets, and any number of links between any number of nodes, each end in the group of its node.
- **Interest guards** (`InterestGuard.dfy`, `Ownership.dfy`, `Tracking.dfy`): the reference-counted guard behind
  `am_interested_`, and the downloader that takes one per owned chunk.
- **The interval allocator** (`ByteSpace.dfy`, `AvailabilityMap.dfy`) and the chunk download built on it
  (`ChunkDownload.dfy`, `ChunkRuns.dfy`, `DownloadChunk.dfy`).
- **Bandwidth counters** (`Bandwidth.dfy`): atomic increments and draining heartbeats, interleaved.
- **The layered configuration** (`Globals.dfy`, `Folders.dfy`, `Config.dfy`) and the components that fold
  its signals into maps of their own (`FolderService.dfy`, `Mirrors.dfy`, `RemoteConfig.dfy`).
- **The URL parser and printer** (`Url.dfy`), **regular-expression escaping** (`RegexEscape.dfy`) and
  **ignore lists** (`Glob.dfy`, `IgnoreList.dfy`).

Most components come in two layers. Functions on values say what each operation does, and the lemmas are
about them: step by step, then over all runs. Classes hold the fields the program updates in place, and
the contract of each method equates its new state with the function applied to the old one, so what is
proved of the functions holds of the objects.

## What the program does not meet

Some laws one would expect are false of the code. The code is modelled as it is; for each there is a lemma
at a concrete input that fails, and the exact condition under which the law holds is proved.

- *No ordinary message is taken for a handshake.* `FolderGroup` broadcasts to every attached remote, ready
  or not (`daemon/folder/FolderGroup.cpp:87` and `116`; `Uploader::broadcast_chunk` and
  `MetaUploader::broadcast_meta` do not filter either). A broadcast by a server end that is not ready is
  parsed as a handshake by the client and fails it. `BroadcastSafeIff` shows that exactly these broadcasts
  do harm, `EarlyBroadcastRun` gives the shortest run.
- *`AvailabilityMap::insert` accepts a block exactly if it is free.* If offset plus length wraps around the
  word type, some blocks are accepted wrongly; `AcceptsWrapped` says which, `InsertMeetsSpecIff` that the
  law holds for all others, `WrappedExample` gives a block. Both callers in the daemon
  (`daemon/folder/transfer/Downloader.cpp:47`, `daemon/folder/transfer/downloader/ChunkFileBuilder.cpp:72`)
  only pass blocks inside the range.
- *The folder service has one group per folder.* A started service does if and only if every act so far was
  safe (`OneGroupPerFolder`). There are three ways to fail: removing a folder that is not configured, which
  is announced all the same (`RemoveServesIff`); removing or importing between `run` and the deferred start
  while some folder has no group yet, although it is configured (`RemovePartlyIff`, `ImportPartlyIff`,
  `EarlyRemovalRun`); and adding a folder in that window, which then gets two groups (`StartServesIff`,
  `EarlyAdditionRun`).
- *A user interface reads the daemon's settings once all events are delivered.* The answer to its first
  request and the events travel on two connections. A setting that changes after the answer was made, and
  whose event arrives before it, is undone by it and stays stale until it changes again (`StaleRun`);
  `MirrorsAgreeIff` shows that exactly these settings are read wrongly.
- *Parsing undoes printing.* It does exactly for the values described by `WellFormed` (`RoundTripIff`):
  the parser never fills in the userinfo, and hosts with '@' or with spaces at the ends of the text are
  lost (`UserIsLost`).
- *Lines of an ignore file that start with "../" are refused.* A two-character prefix is compared with a
  three-character string, so only a line that is cleaned to ".." is (`OnlyDotsRefused`, `DotsAccepted`).

## Hypotheses

- Channels are FIFO, and nothing is delivered to an end after it closed. The digest and the endpoint of a
  connection do not change while it exists.
- Interest, requests and replies are sent on ready ends only, since their handlers are connected in
  `FolderGroup::handle_handshake`. Broadcasts are not restricted.
- Tokens, secrets and hashes are values of parameters; two ends are *honest* if each expects the token the
  other one sends, which is the case exactly if they hold the same secret (`HonestIffSameSecret`).
- The defaults for folders hold no secret, as in `daemon/resources/folders.json`.
- Dictionary keys are listed in any order; a setting that is absent reads like one that is null.
- What an IPv6 address is printed as has no '/', '@' or ']'.
- Only '/' is case-folded to what '/' is case-folded to.

## Model

| member | source | states |
|---|---|---|
| `PeerLink.FlagsAgree` | daemon/p2p/P2PFolder.cpp:157-188 | in every run of two honest ends, replaying the choke and interest messages in flight onto the receiver's `peer_*` flags gives the sender's `am_*` flags, so all four pairs agree once the channels are empty |
| `PeerLink.NoOrdinaryHandshake` | daemon/p2p/P2PFolder.cpp:278-329 | in every run of two honest ends the protocol-error close is never reached and the server's handshake never fails; a message that is no handshake finds its receiver ready, at the client provided no server broadcast was early |
| `PeerLink.BroadcastSafeIff` | daemon/folder/FolderGroup.cpp:84-88 | after any quiet run, a server broadcast can make the client's handshake fail if and only if the server end is open and not ready and the client end is not closed; client broadcasts never do harm |
| `PeerLink.EarlyBroadcastRun` | daemon/folder/transfer/Uploader.cpp:41-45 | a concrete run of four steps in which a chunk announced too early fails the client's handshake |
| `PeerLink.StepKeepsInv` | daemon/p2p/P2PFolder.cpp:278-366 | every step of either end keeps the inductive invariant on both ends and both channels |
| `PeerLink.RunKeepsInv` | daemon/p2p/P2PFolder.cpp:145-366 | so does every run |
| `PeerLink.StepDoes` | daemon/p2p/P2PFolder.cpp:157-276 | what a step of an open end changes in it, and which message it puts on its way, for flags, ordinary messages and closing |
| `PeerLink.ConnectDoes` | daemon/p2p/P2PFolder.cpp:467-473 | an idle end opens if it is admitted and closes if not, and the client then sends its handshake |
| `PeerLink.DeliverDoes` | daemon/p2p/P2PFolder.cpp:278-306 | a delivery takes the first message off the way, and what the end answers goes on its way |
| `PeerLink.ReadyShape` | daemon/p2p/P2PFolder.cpp:287-302 | in plain terms, what each message does to a ready end: the two flags of the peer, nothing, or the protocol-error close |
| `PeerLink.NewShape` | daemon/p2p/P2PFolder.cpp:308-329 | in plain terms, what each message does to an end that is not ready: only the expected token is accepted, and the server answers it |
| `PeerLink.HandshakeCompletes` | daemon/p2p/P2PFolder.cpp:308-329 | between honest ends `handshakeSuccess` fires at most once per end, exactly for the ready ones, readiness is never lost, the client is ready only if the server is, and both are ready exactly after two handshake deliveries |
| `PeerLink.RunCountsHandshakes` | daemon/p2p/P2PFolder.cpp:308-329 | the number of ends that still wait for a handshake falls by exactly the number of handshake deliveries |
| `PeerLink.HandshakeProgress` | daemon/p2p/P2PFolder.cpp:467-473 | from every state of a quiet run with both ends attached, one delivery to each end makes both ready |
| `Hostile.SuccessOnce` | daemon/p2p/P2PFolder.cpp:308-329 | whatever tokens the two ends hold and whatever messages are forged, `handshakeSuccess` fires at most once per end, exactly for the ready ones, and a ready end stays ready |
| `Hostile.ReadyIff` | daemon/p2p/P2PFolder.cpp:308-329 | someone who forges messages but knows only some tokens can make an end ready if and only if the token it expects is among them, or is sent by a peer that can be made to send it |
| `PeerLink.ReceiveKeepsShape` | daemon/p2p/P2PFolder.cpp:278-306 | whatever message an open end receives, its handshake flags, role and signal count stay consistent |
| `Hostile.BothReadyIffHonest` | daemon/p2p/P2PFolder.cpp:127-137 | without forgery, both ends can become ready if and only if each expects the token the other sends; an end never becomes ready on another token |
| `Uploads.ChokedIffNotInterested` | daemon/folder/transfer/Uploader.cpp:47-58 | in every run each end chokes its peer exactly while it knows it not to be interested; between honest ends, once the channels are drained, an end is choked exactly if it is not interested |
| `Uploads.RunExpands` | daemon/folder/FolderGroup.cpp:124-127 | every run with the uploader is a run of the link, so what holds of those runs holds of it |
| `Uploads.ReceiveMessage` | daemon/p2p/P2PFolder.cpp:349-366 | the message and then the choking the uploader answers it with; the group does what `GroupNext` says |
| `Uploads.NoticeAnswered` | daemon/folder/transfer/Uploader.cpp:47-58 | a notice of changed interest is answered at once by the choking message it asks for |
| `Membership.AttachDecides` | daemon/folder/FolderGroup.cpp:151-169 | the two lookup sets decide what a scan of all members would, stay their exact injective images, and a refused remote changes nothing |
| `Membership.DetachDrops` | daemon/folder/FolderGroup.cpp:171-185 | detaching drops exactly that remote and keeps the entries of all others; detaching a refused duplicate changes nothing |
| `Membership.DetachUndoesAttach` | daemon/folder/FolderGroup.cpp:151-185 | detaching an admitted remote restores the group |
| `P2PFolders.FolderGroup.Attach` | daemon/folder/FolderGroup.cpp:151-169 | the fields become what `Membership.Attach` says and stay indexed |
| `P2PFolders.FolderGroup.Detach` | daemon/folder/FolderGroup.cpp:171-185 | the fields become what `Membership.Detach` says and stay indexed |
| `P2PFolders.FolderGroup.HandleHandshake` | daemon/folder/FolderGroup.cpp:120-122 | the remote is marked ready, and nothing else changes |
| `P2PFolders.P2PFolder.constructor` | daemon/p2p/P2PFolder.cpp:43-89 | a new connection has not exchanged handshakes, chokes and is choked, and nobody is interested |
| `P2PFolders.P2PFolder.SendHandshake` | daemon/p2p/P2PFolder.cpp:145-154 | sends exactly the local token and records it |
| `P2PFolders.P2PFolder.HandleConnected` | daemon/p2p/P2PFolder.cpp:467-473 | admitted if and only if the peer's digest is not the node's own and no member of the group has its digest or endpoint; then the group has it and the client has sent its handshake; else it is closed |
| `P2PFolders.P2PFolder.CloseSocket` | daemon/p2p/P2PFolder.cpp:65-94 | closing detaches the remote from its group, as `GroupNext` says |
| `P2PFolders.P2PFolder.Choke` | daemon/p2p/P2PFolder.cpp:157-164 | sends and sets the flag exactly if it changes |
| `P2PFolders.P2PFolder.Unchoke` | daemon/p2p/P2PFolder.cpp:165-172 | sends and clears the flag exactly if it changes |
| `P2PFolders.P2PFolder.Interest` | daemon/p2p/P2PFolder.cpp:173-180 | sends and sets the flag exactly if it changes |
| `P2PFolders.P2PFolder.Uninterest` | daemon/p2p/P2PFolder.cpp:181-188 | sends and clears the flag exactly if it changes |
| `P2PFolders.P2PFolder.PostMessage` | daemon/p2p/P2PFolder.cpp:190-276 | sends exactly one message and leaves the handshake and the flags alone |
| `P2PFolders.P2PFolder.HandleHandshake` | daemon/p2p/P2PFolder.cpp:308-329 | only the expected token is accepted; the server answers with its own; the group marks the remote ready exactly then |
| `P2PFolders.P2PFolder.HandleMessage` | daemon/p2p/P2PFolder.cpp:278-306 | dispatch on readiness, the four flag handlers, and the protocol-error close; the group does what `GroupNext` says, as in the network |
| `Network.NetStepKeepsInv` | daemon/folder/FolderGroup.cpp:151-185 | every step of any link, whatever tokens it holds, keeps the invariant of all links and all groups |
| `Network.ForgeKeepsInv` | daemon/folder/FolderGroup.cpp:151-185 | a forged message keeps it too, except that its link no longer counts as honest |
| `Network.EveryRun` | daemon/folder/FolderGroup.cpp:120-185 | in every run of the network, forged messages included, each group's lookup sets are the injective images of its members, its members are exactly the open ends of its node, and exactly the ready ones among them are marked |
| `Network.OpensIff` | daemon/p2p/P2PFolder.cpp:467-473 | in every run an end that connects opens if and only if its peer is not its own node and no open end of its node has the peer's digest or endpoint |
| `Network.LinksRun` | daemon/p2p/P2PFolder.cpp:43-94 | every link of a network runs as a link on its own does, event by event |
| `Network.OneLinkPerPeer` | daemon/p2p/P2PProvider.cpp:78-80 | with one digest per node, no node ever has itself attached or two attached links to one peer |
| `InterestGuards.EverySequence` | daemon/folder/RemoteFolder.cpp:41-57 | over every sequence of taking, copying and dropping guards `am_interested_` is set exactly while more handles were taken and copied than dropped, at most one guard object is alive, and the notices sent strictly alternate |
| `InterestGuards.RemoteFolder.GetInterestGuard` | daemon/folder/RemoteFolder.cpp:49-57 | shares the guard that is alive, or makes one and announces interest |
| `InterestGuards.RemoteFolder.DropInterestGuard` | daemon/folder/RemoteFolder.cpp:45-47 | only the last handle withdraws interest |
| `Ownership.Tables` | daemon/folder/transfer/Downloader.cpp:98-244 | after every run, read off the events alone: which remotes are there and tracked, which chunks are missing, and that a remote owns a chunk if and only if it announced it while it was missing, with no later finding, adding again or untracking |
| `Ownership.InterestedIffOwner` | daemon/folder/transfer/Downloader.cpp:98-244 | in every run of the downloader, the daemon is interested in a remote exactly while that remote, by the same reading of the events, owns a chunk, and tells it so by strictly alternating messages |
| `Ownership.LawfulIffTimely` | daemon/folder/transfer/Downloader.cpp:165-177 | throughout a run there is no interest in a remote that is not tracked if and only if missing chunks are announced by tracked remotes only |
| `Tracking.HappenKeepsInv` | daemon/folder/FolderGroup.cpp:120-146 | everything that happens to a connection or to the downloader keeps exactly the open and ready remotes tracked, and only those owners |
| `Tracking.EndFollows` | daemon/folder/FolderGroup.cpp:120-185 | the handshake state of every connection goes as the link says, whatever the downloader does |
| `Tracking.MadeIsThere` | daemon/p2p/P2PFolder.cpp:43-89 | a new connection is there, with nothing exchanged yet |
| `Tracking.OwnersSoFar` | daemon/folder/FolderGroup.cpp:129-140 | in every run a remote owns a missing chunk if and only if it told of it on an open and ready connection while it was missing, and since then the connection stayed open and the chunk was neither found nor added again |
| `Tracking.NoGuardOutlivesItsRemote` | daemon/folder/FolderGroup.cpp:120-185 | in every run the daemon is interested in a remote exactly while it owns a chunk in that sense, exactly the open and ready remotes are tracked, and a remote that is not open has no guard left |
| `ByteSpace.InsertMeetsSpecIff` | daemon/util/AvailabilityMap.h:75-98 | `insert` accepts exactly the non-empty, in-range, wholly free blocks, unless the block wraps around the word type onto free bytes; acceptance removes exactly its bytes, refusal changes nothing |
| `ByteSpace.AcceptsWrapped` | daemon/util/AvailabilityMap.h:75-98 | which blocks that wrap around are accepted |
| `ByteSpace.WrappedExample` | daemon/util/AvailabilityMap.h:75-98 | such a block: from a map of 16 bytes, one of almost 2^32 bytes is taken |
| `ByteSpace.SlicePlain` | daemon/util/AvailabilityMap.h:51-73 | for blocks that do not wrap, slicing succeeds exactly if the smaller one is not empty and lies in the larger one, and gives what is left and right of it |
| `ByteSpace.FreeBlockInOneRun` | daemon/util/AvailabilityMap.h:75-81 | because runs are maximal, a free block lies in the one run that the lookup finds |
| `ByteSpace.NewIsValid` | daemon/util/AvailabilityMap.h:47-49 | a new map is valid and all its bytes are free |
| `ByteSpace.InsertAllCovers` | daemon/util/AvailabilityMap.h:75-98 | after any insertions of which none wraps onto free bytes the runs are in range, disjoint, non-adjacent and non-empty, the accepted blocks are disjoint, and what is free is what was free minus exactly those blocks |
| `ByteSpace.LeftIsTotal` | daemon/util/AvailabilityMap.h:85-103 | after any such insertions the lengths of the runs sum to `size_left` |
| `ByteSpace.Canonical` | daemon/util/AvailabilityMap.h:75-98 | the map is determined by the set of free bytes |
| `ByteSpace.OrderDoesNotMatter` | daemon/util/AvailabilityMap.h:75-98 | the same disjoint blocks in any order are all accepted and end in the identical map |
| `ByteSpace.FullIffTiled` | daemon/util/AvailabilityMap.h:106-107 | `full` holds exactly when the accepted blocks tile the whole range |
| `AvailabilityMaps.AvailabilityMap.SliceOff` | daemon/util/AvailabilityMap.h:51-73 | the out-parameters are the blocks left and right, or the empty ones on failure |
| `AvailabilityMaps.AvailabilityMap.Insert` | daemon/util/AvailabilityMap.h:75-98 | updates the fields as the value-level insertion does, and returns the first run behind an accepted block |
| `ChunkDownload.RequestMapExact` | daemon/folder/transfer/Downloader.cpp:44-49 | the request map leaves exactly the bytes that are missing and not asked for |
| `ChunkDownload.AskIsNew` | daemon/folder/transfer/Downloader.cpp:270-296 | a new request is for the first missing bytes nobody was asked for, and for as many in a row as there are and the block size allows; none is made only if all are asked for |
| `ChunkDownload.ReplyTakes` | daemon/folder/transfer/Downloader.cpp:194-225 | a reply with bytes that answers a request removes exactly one request, and is written |
| `ChunkDownload.ReplyEffect` | daemon/folder/transfer/Downloader.cpp:194-225 | all that any reply does: bytes that were asked for are written where they were missing, and completion is signalled if none is missing then; an empty or unexpected reply writes nothing |
| `ChunkDownload.ReplyKeeps` | daemon/folder/transfer/Downloader.cpp:201-218 | a reply removes exactly the requests to its sender for its offset and size, and leaves every other as often as it was there |
| `ChunkDownload.KeepCounts` | daemon/folder/transfer/Downloader.cpp:250-258 | of the requests exactly those to be kept are kept, each as often as it was there |
| `ChunkDownload.KeepAppend` | daemon/folder/transfer/Downloader.cpp:250-258 | and in their order |
| `ChunkDownload.ReplyIgnores` | daemon/folder/transfer/Downloader.cpp:194-225 | a reply that answers no request changes nothing |
| `ChunkRuns.EveryRun` | daemon/folder/transfer/Downloader.cpp:179-296 | over every mix of requests, replies, chokes, departures and timeouts no byte is asked for twice or while present, and none is written twice |
| `ChunkRuns.AskedIsNew` | daemon/folder/transfer/Downloader.cpp:280-293 | what asking does in a run, in plain terms |
| `ChunkRuns.LeftRequests` | daemon/folder/transfer/Downloader.cpp:179-258 | which requests are left, and how often, after some were forgotten and after a reply |
| `ChunkRuns.KeptIsAnswered` | daemon/folder/transfer/Downloader.cpp:179-184 | a request that is kept can still be answered: its reply is written |
| `ChunkRuns.CompleteIffTruthful` | daemon/folder/transfer/downloader/ChunkFileBuilder.cpp:71-79 | in every run a complete file is the chunk if and only if every reply that was written carried the chunk's bytes |
| `ChunkRuns.FirstSignal` | daemon/folder/transfer/Downloader.cpp:210-222 | in every run, until the chunk is dropped on its first signal, an event signals exactly once if it completes a chunk that is not empty, and else never |
| `ChunkRuns.SignalledOnceIff` | daemon/folder/transfer/Downloader.cpp:201-218 | of a chunk that is kept: it is signalled exactly once when complete if and only if no request for no bytes is answered after that |
| `ChunkRuns.PositiveSignalsOnce` | daemon/folder/transfer/Downloader.cpp:287 | with a block size of at least one byte that is always so |
| `DownloadChunks.DownloadChunk.BuildRequestMap` | daemon/folder/transfer/Downloader.cpp:44-49 | the map it builds on a copy, leaving the original alone |
| `DownloadChunks.DownloadChunk.RequestBlock` | daemon/folder/transfer/Downloader.cpp:280-293 | asks exactly if some missing byte is not asked for, and then for the first such bytes, as many as there are in a row and the block size allows |
| `DownloadChunks.DownloadChunk.PutBlock` | daemon/folder/transfer/downloader/ChunkFileBuilder.cpp:71-79 | writes the block to the file exactly if the map accepts it |
| `DownloadChunks.DownloadChunk.HandleReply` | daemon/folder/transfer/Downloader.cpp:194-218 | removes exactly the requests it answers, and writes its bytes exactly if there is one |
| `DownloadChunks.DownloadChunk.ForgetRemote` | daemon/folder/transfer/Downloader.cpp:179-184 | forgets the requests to one remote, and leaves every other as often as it was there |
| `DownloadChunks.DownloadChunk.PruneRequests` | daemon/folder/transfer/Downloader.cpp:250-258 | forgets the requests that timed out, and leaves every other as often as it was there |
| `Bandwidth.Conservation` | daemon/p2p/BandwidthCounter.cpp:38-87 | under every interleaving and modulo 2^64, each total is what all heartbeats took, plus what is left, plus the calls caught between their two increments; what they took is the sum of what each found; the group's total, with the calls between the two counters, is the sum over all peers ever created |
| `Bandwidth.TotalsCount` | daemon/p2p/BandwidthCounter.cpp:69-87 | under every interleaving and modulo 2^64, each total is the bytes of exactly the calls that have got as far as it |
| `Bandwidth.DrainTakes` | daemon/p2p/BandwidthCounter.cpp:42-45 | a drain adds what is left to what was taken, leaves nothing of it, and touches no total |
| `Bandwidth.CallsNext` | daemon/p2p/P2PFolder.cpp:139-143 | every call that begins is there, and advances by one of its four increments at a time |
| `Bandwidth.QuiescentBooks` | daemon/p2p/P2PFolder.cpp:139-143 | once no call is under way these books close exactly |
| `Bandwidth.BandwidthCounter.AddDown` | daemon/p2p/BandwidthCounter.cpp:69-72 | adds to total and undrained bytes of its kind only, keeping the balance |
| `Bandwidth.BandwidthCounter.AddDownBlocks` | daemon/p2p/BandwidthCounter.cpp:74-77 | the same for downloaded blocks |
| `Bandwidth.BandwidthCounter.AddUp` | daemon/p2p/BandwidthCounter.cpp:79-82 | the same for uploads |
| `Bandwidth.BandwidthCounter.AddUpBlocks` | daemon/p2p/BandwidthCounter.cpp:84-87 | the same for uploaded blocks |
| `Bandwidth.BandwidthCounter.Heartbeat` | daemon/p2p/BandwidthCounter.cpp:38-53 | takes exactly what is undrained of each kind, leaves none of it, and reports the totals, which stay |
| `Globals.OpKeepsAgreement` | daemon/control/Config.cpp:59-97 | folding the signals of a set, remove or import onto a map that read like the settings before makes it read like the settings after |
| `Globals.GetAfter` | daemon/control/Config.cpp:59-97 | what every key reads after a set, a removal and an import |
| `Globals.SignalsAre` | daemon/control/Config.cpp:63-97 | which signals a set, a removal and an import emit |
| `Globals.NotificationsRebuild` | gui/control/RemoteConfig.cpp:157-178 | exactly the keys that read differently are notified, once each, and folding the notifications over the old cache rebuilds the new one |
| `Mirrors.StepKeepsMirrored` | gui/control/RemoteConfig.cpp:129-195 | every operation, connection, answer, arrival and event delivery keeps the listeners equal to the cache and, once an answer has arrived, the cache right at exactly the keys that are not stale |
| `Mirrors.SettingsAreTheOps` | daemon/control/Config.cpp:63-97 | in every run the settings are what the operations made of them |
| `Mirrors.ConnectionSteps` | gui/control/RemoteConfig.cpp:129-141 | connecting asks for the settings, which are answered as they are; disconnecting leaves nothing on its way |
| `Mirrors.MirrorsAgreeIff` | gui/control/RemoteConfig.cpp:129-195 | in every run, however events and answer overtake each other, the cache and its listeners read the daemon's settings, after the events on their way, at exactly the keys that are not stale |
| `Mirrors.StaleOnlyIfOvertaken` | gui/control/RemoteConfig.cpp:135-140 | nothing is stale if no event since the answer arrived before it, and nothing becomes stale later |
| `Mirrors.StaleRun` | daemon/control/server/ControlServer.cpp:87-92 | a run in which a setting changed between the answer and its arrival stays unread |
| `Configs.Config.GetGlobal` | daemon/control/Config.cpp:59-61 | the custom value, else the default, which is also what the merged document holds |
| `Configs.Config.SetGlobal` | daemon/control/Config.cpp:63-66 | the new settings and the one signal |
| `Configs.Config.RemoveGlobal` | daemon/control/Config.cpp:68-71 | the new settings and the signal with the default that shows again |
| `Configs.Config.ImportGlobals` | daemon/control/Config.cpp:81-97 | replaces the custom values and announces every key of the old and of the new ones with its new value |
| `Configs.Config.MakeMerged` | daemon/control/Config.cpp:173-182 | the loop builds the custom document over the defaults |
| `Configs.Config.AddFolder` | daemon/control/Config.cpp:99-107 | a bad secret or a known folder changes nothing; else it is stored under its hash and announced with merged parameters |
| `Configs.Config.RemoveFolder` | daemon/control/Config.cpp:109-113 | announces the removal, of a missing folder too, and removes it |
| `Configs.Config.GetFolder` | daemon/control/Config.cpp:115-117 | the parameters the folder's group is made from, or nothing |
| `Configs.Config.ExportUserFolders` | daemon/control/Config.cpp:123-129 | every folder once; the documents can be imported |
| `Configs.Config.ImportFolders` | daemon/control/Config.cpp:139-146 | succeeds exactly if the documents have secrets and different ones; leaves exactly the documents before the first refused one, each under the hash of its secret |
| `Folders.AddAllExact` | daemon/control/Config.cpp:143-145 | when a sequence of additions succeeds, and exactly what the store then holds |
| `Folders.ImportIff` | daemon/control/Config.cpp:139-146 | an import succeeds if and only if the documents have secrets, and different ones, whatever was there before |
| `Folders.ImportLeaves` | daemon/control/Config.cpp:139-146 | what an import leaves in full, completed or not |
| `Folders.StoreNext` | daemon/control/Config.cpp:99-146 | what every act does to the store of folders |
| `Folders.RoundTrip` | daemon/control/Config.cpp:123-146 | exporting a store and importing into any other one rebuilds it |
| `Folders.EveryExportImports` | daemon/control/Config.cpp:99-146 | from every configuration a run reaches, export and import into any other succeed and rebuild the same folders |
| `Folders.MergedKeepsId` | daemon/control/Config.cpp:173-182 | merging keeps the identity of a folder, since the defaults hold no secret |
| `Folders.AddServes` | daemon/folder/FolderService.cpp:65-72 | an addition, refused or not, keeps exactly one group per folder |
| `Folders.RemoveServesIff` | daemon/folder/FolderService.cpp:74-83 | a removal keeps a right service right if and only if the folder is there; otherwise it deletes a group it does not have |
| `Folders.RemovePartlyIff` | daemon/folder/FolderService.cpp:74-83 | a service that has groups for some folders only hears of a removal rightly if and only if it has a group for the folder |
| `Folders.ImportPartlyIff` | daemon/control/Config.cpp:139-146 | and of an import if and only if every configured folder has a group |
| `Folders.ImportServes` | daemon/control/Config.cpp:139-146 | an import, completed or not, keeps exactly one group per folder |
| `Folders.StartServesIff` | daemon/folder/FolderService.cpp:49-58 | the deferred start is right if and only if no folder got a group before it |
| `Folders.OneGroupPerFolder` | daemon/folder/FolderService.cpp:49-83 | in every run, a started service has exactly one live group per configured folder, made from its merged parameters, if and only if every act so far was safe |
| `Folders.EarlyRemovalRun` | daemon/folder/FolderService.cpp:74-83 | removing a configured folder before the deferred start deletes a group that is not there yet |
| `Folders.EarlyAdditionRun` | daemon/folder/FolderService.cpp:49-72 | a folder added before the deferred start gets two groups, of which one is lost |
| `FolderServices.FolderService.InitFolder` | daemon/folder/FolderService.cpp:65-72 | the group is stored under the folder's identity, over one that is there |
| `FolderServices.FolderService.DeinitFolder` | daemon/folder/FolderService.cpp:74-83 | removes and deletes one group, and faults on a missing one |
| `FolderServices.FolderService.Start` | daemon/folder/FolderService.cpp:50-54 | every configured folder is initialised with its merged parameters |
| `FolderServices.FolderService.Stop` | daemon/folder/FolderService.cpp:60-63 | every group is deleted, and no group object is left over if there was one per entry |
| `RemoteConfigs.RemoteConfig.HandleGlobals` | gui/control/RemoteConfig.cpp:157-178 | the cache is replaced; exactly the keys that read differently are notified, once each |
| `RemoteConfigs.RemoteConfig.DropEqual` | gui/control/RemoteConfig.cpp:164-169 | removing from the list while walking it leaves exactly the differing keys in order |
| `RemoteConfigs.RemoteConfig.HandleEvent` | gui/control/RemoteConfig.cpp:188-195 | the cache reads the new value; a listener hears of it only if it is new |
| `Urls.RoundTripIff` | daemon/util/parse_url.cpp:36-107 | parsing a printed URL gives the same URL back if and only if it is well-formed |
| `Urls.ReparseIff` | daemon/util/parse_url.cpp:36-107 | of a value parsed from any text, only the host decides whether printing and parsing keep it |
| `Urls.UserIsLost` | daemon/util/parse_url.cpp:56-65 | a user name does not come back, nor does what is before a '@' in a host |
| `Urls.UserSkipped` | daemon/util/parse_url.cpp:56-64 | whatever user name is put before a plain host, the rest of the URL is parsed as without it |
| `Urls.ParsedShape` | daemon/util/parse_url.cpp:36-88 | what every parsed value meets: no userinfo, no "://" in the scheme, a 16-bit port, a query that is empty or starts with '/', no delimiter in a plain host |
| `Urls.PortSurvives` | daemon/util/parse_url.cpp:80-83 | every 16-bit port survives being printed in decimal and cast back |
| `Urls.CastDigits` | daemon/util/parse_url.cpp:80-83 | digits, with a sign or without, are cast to their number below 2^16, and a minus wraps |
| `Urls.CastOnlyDigits` | daemon/util/parse_url.cpp:80-83 | nothing else is cast |
| `Urls.SpacesAre` | daemon/util/parse_url.cpp:37 | which characters are trimmed |
| `Urls.MarkedStartIsBad` | daemon/util/parse_url.cpp:45-83 | a text that starts with "://" always fails on its port |
| `Urls.ParseUrl` | daemon/util/parse_url.cpp:36-88 | the parser, position by position, is the specified one |
| `Urls.PrintUrl` | daemon/util/parse_url.cpp:90-107 | the printer, piece by piece, is the specified one, and fails on an IPv6 host that is no address |
| `RegexEscapes.RegexEscape` | daemon/util/regex_escape.h:34-50 | thirteen replacements of the whole string come to one escape per character, and removing the escapes recovers the text |
| `RegexEscapes.EscapeMeans` | daemon/util/regex_escape.h:34-50 | escaping goes character by character: a listed one gets a backslash in front, any other stays |
| `RegexEscapes.ChainIsOnePassIff` | daemon/util/regex_escape.h:35-47 | a chain of replacements of different characters is one pass on every string if and only if the backslash is replaced first, where it is replaced |
| `RegexEscapes.UnescapeEscapeIff` | daemon/util/regex_escape.h:35-47 | removing the escapes recovers every string if and only if the backslash is escaped |
| `RegexEscapes.EscapeInjective` | daemon/util/regex_escape.h:34-50 | different strings have different escapes |
| `Globs.ConcatIff` | daemon/folder/IgnoreList.cpp:43-48 | a pattern made of two matches a text if and only if the text splits into matches of the two |
| `Globs.OneMatches` | daemon/folder/IgnoreList.cpp:43-48 | what the empty pattern and those of one character match: '?' any one character, '*' anything, a letter itself up to case |
| `Globs.IgnoredIff` | daemon/folder/IgnoreList.cpp:111-119 | a path is ignored if and only if one of the patterns matches it or a directory above it |
| `Globs.IgnoredBeneath` | daemon/folder/IgnoreList.cpp:111-119 | everything beneath an ignored path is ignored, whatever the case folding |
| `IgnoreLists.OnlyDotsRefused` | daemon/folder/IgnoreList.cpp:88-109 | a line that is neither empty nor a comment has no pattern if and only if it is not relative or is cleaned to ".." |
| `IgnoreLists.LineHas` | daemon/folder/IgnoreList.cpp:88-109 | exactly which pattern a line has |
| `IgnoreLists.PatternsAre` | daemon/folder/IgnoreList.cpp:58-86 | the patterns are the system folder and those of all lines of all ignore files |
| `IgnoreLists.PrefixIs` | daemon/folder/IgnoreList.cpp:70-72 | the directory of an ignore file is its path without its name |
| `IgnoreLists.DotsAccepted` | daemon/folder/IgnoreList.cpp:102-108 | a line that leaves the directory of its ignore file and gets a pattern |
| `IgnoreLists.IgnoreList.IsIgnored` | daemon/folder/IgnoreList.cpp:43-48 | rebuilds the filters if they are more than ten seconds old and then answers as `IgnoredIff` says; the system folder and what is beneath it are always ignored |
| `IgnoreLists.IgnoreList.LazyRebuildIgnores` | daemon/folder/IgnoreList.cpp:50-56 | rebuilds exactly if the filters are more than ten seconds old |
| `IgnoreLists.IgnoreList.RebuildIgnores` | daemon/folder/IgnoreList.cpp:58-86 | the filters are those of the system folder and of every line of every ignore file, in order |
| `IgnoreLists.IgnoreList.ParseLine` | daemon/folder/IgnoreList.cpp:88-109 | adds the pattern of the line, if it has one |
| `IgnoreLists.IgnoreList.AddIgnorePattern` | daemon/folder/IgnoreList.cpp:111-119 | adds the pattern and the one for everything beneath it |

## Left out

- Message encoding, tokens, secrets, signatures and certificates: messages are abstract, and hashing and token derivation are parameters. Messages of an unknown type or with a malformed body, which an honest end does not send, are not represented.
- The choice of the chunk and of the remote to request from (download queue weights, `nodeForRequest`): it decides which steps are taken, and every choice is covered.
- Ownership.InterestedIffOwner: the downloader's tables are modelled on values; that its chunk objects are shared pointers is not captured.
- ChunkRuns.CompleteIffTruthful: checking the hash of a finished chunk, which the program leaves to be done (`daemon/folder/transfer/Downloader.cpp:216`), is not part of the model.
- FolderServices.FolderService.InitFolder: a group is represented by the parameters it was made from and counted, not built.
- Network.OneLinkPerPeer: only at most one link per peer; when two nodes dial each other at once each may keep a different connection and refuse the other.
- Mirrors.MirrorsAgreeIff: an answer to a request of an earlier connection does not arrive on a later one.
- DownloadChunks.DownloadChunk.PutBlock: a block that wraps around onto free bytes, which no caller passes, is excluded; the file would grow.
- The cache of folders in `RemoteConfig`, saving and loading the configuration files, and the reading side effect of the non-constant `operator[]`, which inserts a null default.
- The ping and timeout timers: a timeout is a close step that may happen at any time.
- The byte counters inside the connection object: the pairs of calls made on sending and receiving are steps of `Bandwidth.dfy`.
- Bandwidth rates, which divide by elapsed time.
- Globs.IgnoredIff: bracket classes in patterns are not modelled; '[' is a literal. Qt's path cleaning and the directory walk are parameters.
- Urls.ParseUrl: the read of the character at the end of the text counts as no '['.
- Simultaneous access to the ignore list under its read/write lock: calls are taken one after the other.
- Discovery providers, NAT traversal, the SQLite wrapper, meta storage, archives and the user interface.
