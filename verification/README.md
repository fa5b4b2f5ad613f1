# FuseJS: a verified model of the request path

FuseJS binds libfuse's low-level API to Node.js. A kernel request is packed into a `void *` array on the FUSE session thread, handed to the event loop through one `async->data` slot, dispatched by operation name to a JavaScript handler, and answered through a `Reply` object. This project models that path with NodeFS, the file system under `examples/nodefs.js`, at its end, and proves what holds of it over all inputs, schedules and runs.

| module | part of the system |
|---|---|
| `Numbers`, `PathHash` | ToInt32, shift and AND of ECMA-262 edition 5.1 (sections 9.5, 11.7.1, 11.10, 15.8.2.1) and the inode hash as a loop over code units |
| `PathIndex` | the `tree` table from inode to path, as a run of assignments and deletions |
| `Dirents`, `Replies` | directory records as bytes, the buffer `Reply` fills in place, stats objects and their conversion, the replies sent |
| `Marshalling`, `Dispatch` | the argument arrays of all 33 callbacks, the casts both ways, the JavaScript arguments, the chain of name comparisons |
| `Handoff`, `HandoffRuns`, `HandoffHeap`, `HandoffProgress`, `HandoffWitnesses` | the two threads as a step system over an explicit heap |
| `AsyncChannel` | the two threads as methods on mutable state, each tied to steps of `Handoff` |
| `Handlers`, `NodeFileSystem` | what each NodeFS handler does with its JavaScript arguments, as a function and as methods on the mutable table |
| `Signatures` | the handlers' parameter lists by name, against the argument vectors of the binding |
| `Listings`, `Answers`, `Reactions` | the offset protocol of listings; how often a request is answered, and with exactly what |
| `TableRuns` | the table, lookups and listings over whole runs of callbacks |
| `Pipeline` | the whole process: the handoff, with the handlers inside its call step, the table, open reads and replies |

## The handoff and its assumption

A state holds both threads' positions, `pending`, the slot, the arrays, records and private name copies that are allocated, and histories of dispatched callbacks and freed blocks. A schedule is any sequence of actions of either thread; using a freed or foreign block is a fault.

libuv is not part of this model. What is assumed of it: `send` sets `pending`, and does nothing more if it is set; the loop clears `pending` before it runs the callback.

`AsyncCallback` loads `handle->data` twice, after the clear. **The base result, exactly-once delivery for every interleaving (`AtomicTakeDelivers`), assumes that the clear and both loads are one step**, the action `Take`. The finer model has `Clear`, `Load1` and `Load2` as separate actions, and there the statement is false without a condition. `ExactlyOnceIff` gives the exact one: a run that has ended has delivered every request once, in order and with its own arguments, if and only if no store of the session thread fell between a clear and the second load after it. `LeakFreeIff` says the same of its memory. `SplitLoadsCanLose` shows that every session of two or more requests has a schedule that loses its first request.

## The end of the process

An exception that leaves a handler reaches FatalException (src/proxy.h:63-66), and the repository installs no listener for uncaught exceptions, so it ends the process. In the model the call step then leads to an exit, after which neither thread moves, nothing is freed, and no read completes. All theorems about replies are about this process: a request is answered only if no handler before it has ended the process.

## What does not hold

- **Exactly-once delivery** without the atomic take (`SplitLoadsCanLose`; exact condition in `ExactlyOnceIff`).
- **setxattr on Linux ends the process.** NodeFS declares eight parameters, the binding passes seven arguments, so `reply` is undefined and the handler raises (`ReplyBoundIff`); no later request is answered (`SetXAttrSilences`). `bmap` raises as well: `Reply` has no such method. `getxattr` raises when the size does not fit a signed 32-bit integer. `EndsIff` is the exact condition for every handler.
- **A listing is not always answered once.** Each entry that does not fit is answered by an empty reply on the spot, before the accumulated records go out. There is one reply exactly when all records fit (`OneReplyIff`), and since the kernel takes the first reply, a client sees the directory exactly when they fit and nothing otherwise (`CompleteListingIff`, `ListingOverRuns`). An offset in the middle of a directory starts the whole listing again (`ResumeIff`).
- **Inodes are not unique.** "/tmp/Aa" and "/tmp/BB" share an accumulator; "/tmp/qwsdxca" and "/tmp/qwsdxcq" have opposite ones, so that `Math.abs` gives both inode 8. `IndexAgreesIff` says exactly when the table is an index of the known paths.
- **Replies do not always carry their inode.** The stats that setattr replies, and those in a lookup's entry, have no `inode` property, which converts to `st_ino` 0 (`SetAttrReportsZero`, `LookupReportsZero`). `InodeCarriedIff` says exactly for which requests the attributes carry the right inode.
- **rmdir does not wait.** It calls the asynchronous `fs.rmdir`, which returns nothing, so success is replied and the path dropped at once. Both agree with the file system if and only if the deferred removal does not fail (`RemovalAgreesIff`); `RmDirForgetsLiveDirectory` is a case where it does.

## Model

| member | source | states |
|---|---|---|
| HandoffRuns.AtomicTakeDelivers | src/bindings.cc:120-126 | For every interleaving with an atomic take the dispatched callbacks are a prefix of FUSE's, each once and in order, equal to them at rest; no fault ever |
| HandoffRuns.ExactlyOnceIff | src/bindings.cc:123-125 | With split loads, a run that has ended delivered everything, up to a handler that ended the process, exactly once and in order iff no store fell between a clear and the second load after it |
| HandoffRuns.DeliveredUnlessIntruded | src/filesystem.cc:54-64 | The if half at every reachable state: the log is the list of the first requests, each from its own record with its own operation and arguments |
| HandoffRuns.IntrudedLoses | src/filesystem.cc:62-64 | The only-if half: after one intruding store no continuation delivers everything |
| HandoffRuns.StepKeeps | src/filesystem.cc:54-64 | Every step of either thread that is not an intruding store keeps the whole invariant of threads, slot, heap and histories, an exit included |
| HandoffRuns.LostForGood | src/bindings.cc:123-125 | A record overwritten in the slot before its second load stays allocated and undispatched through every later step |
| HandoffRuns.LookupNameIsolated | src/filesystem.cc:85-96 | Every Lookup that reaches its handler has the name FUSE asked for, for every later content of the receive buffer |
| Handoff.CallIs | src/proxy.cc:65-198 | In an unintruded run the dispatch step runs the handler of the request's own operation on the request's own values; then the process ends if the handler raises, else the frees follow unless it is Init or Destroy |
| Handoff.CallKeeps | src/proxy.cc:108-198 | Dispatch adds the next request to the log and keeps arrays, records and names accounted for, with and without an exit, those of Init and Destroy being kept |
| Handoff.FreeNameKeeps | src/proxy.cc:197-198 | The delete of a Lookup's name releases its own copy, live until then, and keeps the invariant |
| Handoff.FreeArgsKeeps | src/proxy.h:68-70 | The delete of the array releases the dispatched request's own live array and keeps the invariant |
| Handoff.FreeRecordKeeps | src/proxy.h:71 | The delete of the record releases the dispatched request's own live record, after its array, and keeps the invariant |
| HandoffHeap.HeapConservation | src/proxy.h:68-71 | In every unintruded run no block is freed twice or used after, at most three arrays and two records are live, and at rest every request's array, record and, for a Lookup, name are freed once each, but for Init and Destroy, whose array and record remain |
| HandoffHeap.LeakFreeIff | src/bindings.cc:123-125 | A session that has ended without an exit has leaked no record and used no foreign one iff no store intruded |
| HandoffHeap.LiveBounds | src/filesystem.cc:54-64 | The bounds of three arrays and two records from the invariant |
| HandoffHeap.FreeLogCounts | src/proxy.h:68-71 | Each name copy of a Lookup, array and record of the first n requests occurs once in the list of frees, and nothing else does |
| HandoffWitnesses.SplitLoadsCanLose | src/bindings.cc:123-125 | Every session of two or more requests has a schedule that never delivers all, however it continues |
| HandoffWitnesses.BoundsReached | src/filesystem.cc:54-64 | The bounds are tight: three arrays and two records are live in a concrete schedule of any three requests |
| HandoffWitnesses.NameSurvivesOverwriting | src/filesystem.cc:85-96 | Whatever the receive buffer holds while a Lookup waits, the handler gets the old name |
| HandoffProgress.NeverStuck | src/filesystem.cc:54-56 | In every reachable state that has not ended some action changes the state and lessens the work left |
| HandoffProgress.StepUsesWork | src/filesystem.cc:54-64 | Every step that changes the state strictly lessens the work left; only idle turns do not |
| HandoffProgress.NoDeadlock | src/filesystem.cc:54-64 | An action of a named kind is possible in every state that has not ended, whatever its environment chooses |
| HandoffProgress.FairRunsFinish | src/filesystem.cc:54-56 | Under any fair scheduler a session ends within 1 + 16n rounds; unless a store intruded, the wait loop has exited each time and everything is delivered up to an exit |
| HandoffProgress.FairAtomicRunsDeliver | src/bindings.cc:120-126 | With an atomic take and a fair scheduler every session delivers its requests in order up to an exit, and without one all of them, with all memory freed but what is kept |
| AsyncChannel.CopyName | src/filesystem.cc:85-88 | The fresh copy has the received name's characters |
| AsyncChannel.Session.constructor | src/bindings.cc:85-89 | A session starts in the initial state with nothing pending |
| AsyncChannel.Session.PackRequest | src/filesystem.cc:81-97 | The packer's array and, for Lookup, its own copy of the name are the ones the step system allocates |
| AsyncChannel.Session.Proxy | src/filesystem.cc:49-65 | Started with a packed request, and with any steps of the event loop during each sleep and between the later statements: if the sleeps are fair the wait loop ends and the request is in the slot and signalled, its record live unless a store intruded, or the process has ended |
| AsyncChannel.Session.FillRecord | src/filesystem.cc:58-61 | The new record has the callback's name and its array |
| AsyncChannel.Session.StoreRecord | src/filesystem.cc:62 | The record is in the slot, over whatever was there |
| AsyncChannel.Session.SendSignal | src/filesystem.cc:64 | `pending` is set and the session thread is free for the next request |
| AsyncChannel.Session.LoadFirst | src/bindings.cc:123 | The first load of the slot, a fault when it is empty |
| AsyncChannel.Session.LoadSecond | src/bindings.cc:125 | The operation from the first load's record, the argument from the slot as it is by then |
| AsyncChannel.Session.TakeRecord | src/bindings.cc:123-125 | The clear and both loads in a row are the atomic take step, fault cases included |
| AsyncChannel.Session.CallHandler | src/bindings.cc:125 | The chain, the unpacking and the end of the process on mutable state are the call step, fault cases included |
| AsyncChannel.Session.FreeName | src/proxy.cc:197 | The delete of the name in slot 2 is the step of the model |
| AsyncChannel.Session.FreeArgs | src/proxy.h:69-70 | The delete of the array is the step of the model |
| AsyncChannel.Session.FreeRecord | src/proxy.h:71 | The delete of the record is the step of the model |
| AsyncChannel.Session.Turn | src/bindings.cc:107-126 | Any steps of a thread in a row are that stretch of a schedule |
| AsyncChannel.Session.AsyncCallback | src/bindings.cc:120-126 | One callback, with the loads apart and any steps of the session thread between any two of its own, dispatches exactly the next request with its own arguments and is idle again, or has ended the process, unless a store intruded |
| Dispatch.DispatchByName | src/proxy.cc:65-106 | The chain runs the handler of the name's own operation once and no other; none for an unknown name |
| Dispatch.NamesDistinct | src/bindings.h:67-70 | No two operations have the same name |
| Dispatch.OnlyPosition | src/proxy.cc:72-105 | A comparison of the chain succeeds on an operation's name exactly at that operation's place |
| Marshalling.RoundTrip | src/filesystem.cc:67-558 | For every callback and all argument values, the handler's casts give back the packed values in their positions, Lookup's through its copy |
| Marshalling.CastsRoundTrip | src/proxy.cc:242-1419 | Sign-extended int, unsigned mode, 64-bit offset and size survive the slot and the casts through long |
| Marshalling.Pack | src/filesystem.cc:67-558 | The array filled slot by slot has the specified slots, for all 33 callbacks |
| Marshalling.PackXAttr | src/filesystem.cc:401-486 | The same for the extended attribute callbacks, setxattr with six slots |
| Marshalling.JsArgsExactIff | src/proxy.cc:164-1419 | The conversions of the argument vector change no number iff each Integer argument fits int32 and each Number argument is a multiple of the gap of the doubles around it |
| Marshalling.ExactDouble | src/proxy.cc:183 | An inode reaches JavaScript unchanged below 2^53, and above exactly when the doubles have no gap there |
| Marshalling.NearestDouble | src/proxy.cc:183 | Every inode becomes the nearest double, of two the one with an even quotient |
| Marshalling.GapFits | src/proxy.cc:183 | The gap is the one between the doubles around the number |
| Signatures.ArgumentsBySignature | src/proxy.cc:164-1419 | For every callback, each argument is the callback's own field that the handler's parameter at that position names, those included that NodeFS ignores: inodes and attribute sizes as doubles, other numbers as 32-bit integers |
| Signatures.ExactBySignature | src/proxy.cc:164-1419 | The handler sees all of its callback's own numbers iff each inode and attribute size is a multiple of the gap of the doubles around it and each other number fits int32 |
| PathHash.Hash | examples/nodefs.js:36-46 | The loop computes the absolute value of the signed 32-bit residue of the sum of s[i]*31^(n-1-i), in 0..2^31 inclusive |
| PathHash.RoundIsExact | examples/nodefs.js:40-44 | In every round of every string all intermediates are below 2^53, and the round extends the closed form by one code unit |
| PathHash.ConcatenationLaw | examples/nodefs.js:36-46 | The sum for a followed by b is that of a times 31^len(b) plus that of b |
| PathHash.AccOfConcatenation | examples/nodefs.js:36-46 | A child path's accumulator is determined by the parent's accumulator and the suffix |
| PathHash.HashSeparation | examples/nodefs.js:40-45 | Strings of one length that differ in one code unit never share an accumulator, and share an inode iff their accumulators are opposite |
| PathHash.CancelPower | examples/nodefs.js:42 | 31^k can be cancelled modulo 2^32 |
| PathHash.SignCollision | examples/nodefs.js:45 | Two such strings with opposite accumulators exist, so the exception is real |
| PathHash.AccumulatorCollision | examples/nodefs.js:36-46 | Two paths of one length with equal accumulators exist |
| PathIndex.CoherentAfter | examples/nodefs.js:29-78 | With no assumption on the hash, every key stays the hash of its path, or key 1 on the root path, after any run of updates |
| PathIndex.IndexAgreesIff | examples/nodefs.js:29-78 | The table is an index of the known paths after every run over a universe iff the universe has no collision and no path hashing to 1 |
| PathIndex.IndexAgreesWithKnownPaths | examples/nodefs.js:29-78 | The if half, for each run: key 1 is the root, each known path is under its hash, nothing else is there |
| PathIndex.InodeStability | examples/nodefs.js:59-78 | A stored inode resolves to its path after any later updates that do not drop that path |
| PathIndex.InodeGone | examples/nodefs.js:145-173 | A dropped path has no entry until it is stored again |
| PathIndex.CollidingNamesShareAnInode | examples/nodefs.js:78 | With colliding names the first inode resolves to the second path |
| PathIndex.RootHash | examples/nodefs.js:29-30 | The root path's own hash is not the key it is stored under |
| Dirents.RecordSize | src/reply.cc:509-511 | The least multiple of eight that holds the header and the name |
| Dirents.DecodeRoundTrip | src/reply.cc:509-511 | Reading records back gives the written ones, in order, for any sequence |
| Dirents.LittleEndianRoundTrip | src/reply.cc:509-511 | A field of n bytes gives back every value below 256^n |
| Dirents.AcceptedRoundTrip | src/reply.cc:493-532 | What the kernel decodes from the buffer is exactly the greedily accepted entries, for any size |
| Dirents.AllAcceptedIff | src/reply.cc:519-530 | No entry is rejected iff the aligned sizes sum to at most the requested size, and iff the accepted ones are all of them |
| Dirents.AcceptedBounds | src/reply.cc:519-530 | The accepted entries never outgrow the requested size |
| Replies.FuseAddDirentry | src/reply.cc:509-511 | The assumed contract of libfuse with a concrete writer: the record only if it fits, no byte outside it |
| Replies.Reply.constructor | src/reply.cc:28-32 | A fresh reply has no buffer and has sent nothing |
| Replies.Reply.AddDirEntry | src/reply.cc:460-533 | For any requested sizes: the exact case in which the record is written outside the buffer; otherwise the buffer stays the serialised accepted entries, earlier bytes stay, the count follows, and a rejected entry sends one empty reply. With one requested size the subtraction never wraps and only a failed allocation crashes |
| Replies.Reply.Buffer | src/reply.cc:240-244 | The reply is the accumulated records if an entry was accepted, else the data |
| Replies.EmptyIff | src/reply.cc:240 | The accumulated size is zero exactly when no entry was accepted |
| Replies.KindOf | src/node_fuse.cc:92 | The four file type bits of the mode that the stats conversion passes on |
| Replies.CString | src/reply.cc:511 | The stored name is the longest NUL-free prefix |
| Handlers.HandleIs | examples/nodefs.js:59-434 | For every callback, the handler reading its parameters by position in its signature, on the argument vector the binding builds, does what it does with the callback's own fields |
| Handlers.ReplyBoundIff | examples/nodefs.js:364-374 | Every handler's `reply` is the reply object except setxattr's, which is undefined |
| NodeFileSystem.NodeFS.constructor | examples/nodefs.js:29-30 | The table starts with the root path under inode 1, and no known paths |
| NodeFileSystem.NodeFS.Indexed | examples/nodefs.js:29-30 | In every state of the object the table is the index of its known paths on a collision-free universe, and each key a hash in any case |
| NodeFileSystem.NodeFS.Put | examples/nodefs.js:78 | The assignment adds exactly this path to the known ones |
| NodeFileSystem.NodeFS.Remove | examples/nodefs.js:155 | The deletion takes exactly this path from the known ones |
| NodeFileSystem.NodeFS.Lookup | examples/nodefs.js:59-79 | ENOENT and no update exactly where lstat finds nothing, else the entry with the path's hash and attributes of inode 0, and the path stored; the known paths follow the reply |
| NodeFileSystem.NodeFS.MkDir | examples/nodefs.js:117-143 | When the call and the stat succeed the entry with the path's hash is replied and the path stored, when the call returns an error value EIO and nothing; the known paths follow the reply |
| NodeFileSystem.NodeFS.Unlink | examples/nodefs.js:145-158 | The named path is forgotten iff success is replied |
| NodeFileSystem.NodeFS.RmDir | examples/nodefs.js:160-173 | The named path is forgotten iff success is replied, which is always unless the call refuses at once |
| NodeFileSystem.NodeFS.Link | examples/nodefs.js:175-203 | The same for the call from the inode's path to the new one |
| NodeFileSystem.NodeFS.SymLink | examples/nodefs.js:205-233 | The same for the call with the link's text as the target, and lstat |
| NodeFileSystem.NodeFS.Rename | examples/nodefs.js:242-251 | The new path becomes known iff success is replied, and the old one stays known |
| NodeFileSystem.NodeFS.Create | examples/nodefs.js:391-421 | The named path becomes known iff a create reply with its hash is sent |
| NodeFileSystem.NodeFS.ListEntry | examples/nodefs.js:313-322 | One turn of the loop: a readable name is stored, offered with its inode and offset, and answered by an empty reply iff it is rejected; it ends the process exactly if it raises or its record goes to no buffer |
| NodeFileSystem.NodeFS.ReadDir | examples/nodefs.js:306-325 | The joined paths of "..", "." and the names the directory holds are stored in order, all of them unless one ends the process; they become known and no path is lost |
| NodeFileSystem.NodeFS.GetAttr | examples/nodefs.js:85-98 | ENOENT when the stat raises, else attributes with the requested inode |
| NodeFileSystem.NodeFS.SetAttr | examples/nodefs.js:100-110 | One reply or an exception; the stats have no inode property |
| NodeFileSystem.NodeFS.Open | examples/nodefs.js:253-269 | The second open is tried when the first raises; its exception is not caught |
| NodeFileSystem.NodeFS.Serve | examples/nodefs.js:59-434 | Any operation on any argument vector does what its handler's outcome says and keeps the table the index of the known paths |
| Listings.OneReplyIff | examples/nodefs.js:313-324 | The reply attempts are one plus the rejected entries; one iff all records fit, and then it decodes to the records of "..", "." and every name the directory holds in order, whose paths are stored |
| Listings.CompleteListingIff | examples/nodefs.js:306-325 | For one directory path, a client from offset 0 gets "..", "." and every name the directory holds once and in order and stops after two calls iff all records fit; else it gets nothing |
| Listings.ResumeIff | examples/nodefs.js:310-321 | Resuming after entry k gives exactly the rest iff k is the last; otherwise "..", "." and all names of the directory again |
| Listings.CalmIff | examples/nodefs.js:313-322 | No entry of a listing ends the process iff the directory can be read and every path and stat succeeds and no record goes to a buffer that could not be allocated |
| Listings.DecodedInodes | src/node_fuse.cc:91 | Every decoded entry carries its name and, through the stats conversion, the hash of its path |
| Answers.EndsIff | src/proxy.h:63-66 | The exact condition for each handler to end the process |
| Answers.AnsweredOnceIff | examples/nodefs.js:59-434 | A handler makes exactly one reply attempt iff it does not end the process, or is an answerable listing |
| Answers.ListingAnsweredIff | examples/nodefs.js:306-325 | A listing is answered once iff it starts past the end, or all fit and nothing ends the process, or it breaks off after exactly one rejection |
| Answers.OneUnlessListing | src/reply.cc:12-22 | Every handler but readdir makes one reply attempt, or none if it ends the process or awaits none |
| Answers.InodeCarriedIff | src/node_fuse.cc:83-91 | The attributes in every reply carry the inode they belong to iff the request is not a setattr or lookup that succeeds on an inode other than 0 (or a getattr whose number rounds to 2^64) |
| Answers.SetAttrReportsZero | examples/nodefs.js:109 | A setattr on inode 1 that succeeds and reports inode 0 |
| Answers.LookupReportsZero | examples/nodefs.js:69-77 | A lookup that replies inode 8 with attributes of inode 0 |
| Answers.RemovalAgreesIff | examples/nodefs.js:145-173 | The success reply and the dropped path agree with what the file system does in the end: always for unlink, for rmdir iff the deferred removal does not fail |
| Answers.RmDirForgetsLiveDirectory | examples/nodefs.js:162-172 | An rmdir that fails later: success replied, the path dropped, the directory still there |
| Answers.HandedOutInodeResolves | examples/nodefs.js:59-79 | Every inode handed out in an entry or create reply is the hash of the named path and resolves to it when the handler returns, collisions or not |
| Answers.AttrAfterEntry | examples/nodefs.js:85-98 | A getattr on an inode just handed out stats that very path and answers with that inode |
| Answers.SuccessUpdatesTable | examples/nodefs.js:145-173 | A rename that reports success has its new path resolving; a removal has its inode gone |
| Answers.FailureKeepsTable | examples/nodefs.js:59-421 | A handler other than readdir that ends the process or reports an error leaves the table as it was |
| Answers.OnlyRemovalDrops | examples/nodefs.js:145-173 | Only an unlink or rmdir that names a path drops it |
| Reactions.LookupReacts | examples/nodefs.js:59-79 | ENOENT alone iff lstat finds nothing; the entry with attributes of inode 0, and the path stored, iff it finds it |
| Reactions.MkDirReacts | examples/nodefs.js:117-143 | The entry with its own inode, and the path stored, iff the call and the stat succeed; EIO alone iff the call returns an error value; else the end of the process |
| Reactions.LinkReacts | examples/nodefs.js:175-203 | The same for link, called with the inode's path and the new one |
| Reactions.SymLinkReacts | examples/nodefs.js:205-233 | The same for symlink, called with the link's text and the new path, and lstat |
| Reactions.UnlinkReacts | examples/nodefs.js:145-158 | Success, and the path dropped, iff the call succeeds; EIO iff it returns an error value; else the end |
| Reactions.RmDirReacts | examples/nodefs.js:160-173 | Success, and the path dropped, iff the call does not refuse at once |
| Reactions.RenameReacts | examples/nodefs.js:242-251 | Success, and the new path stored, iff the call from the old path to the new one does not raise |
| Reactions.CreateReacts | examples/nodefs.js:391-421 | The create reply with its own inode, and the path stored, iff a descriptor is returned and the stat succeeds; EIO iff none is |
| Reactions.ListReacts | examples/nodefs.js:306-325 | The process ends iff a name's path or stat raises or its record goes to no buffer; the updates are the stores of the names as far as they go; else one empty reply per rejected record and then the accepted ones |
| Reactions.ReadDirReacts | examples/nodefs.js:306-311 | The end when the directory cannot be read; one empty reply past its end; else the listing of the inode's path with the size and offset as 32-bit integers |
| Reactions.GetAttrReacts | examples/nodefs.js:85-98 | ENOENT iff the stat raises; else attributes with the inode and the mode |
| Reactions.SetAttrReacts | examples/nodefs.js:100-110 | Attributes of inode 0 iff the call and the stat succeed; EIO iff the call returns an error value; else the end |
| Reactions.ReadLinkReacts | examples/nodefs.js:235-240 | The target that was read, or the end |
| Reactions.OpenReacts | examples/nodefs.js:253-269 | Opened for appending, or if that raises for reading; EIO iff no descriptor is returned; the end iff both raise |
| Reactions.ReadReacts | examples/nodefs.js:271-276 | A reply later, or the end |
| Reactions.WriteReacts | examples/nodefs.js:278-287 | The count that was written, or the end |
| Reactions.GetXAttrReacts | src/reply.cc:379-386 | The size iff it fits a signed 32-bit integer, else the end |
| Reactions.OthersReact | examples/nodefs.js:112-434 | The fixed replies of the other handlers, and the end for setxattr and bmap |
| TableRuns.TableCoherent | examples/nodefs.js:29-404 | Before every request of every run, each key is the hash of its path or key 1 on the root path |
| TableRuns.InodeStableUntilRemoved | examples/nodefs.js:59-421 | Over whole runs of callbacks on a collision-free universe, an inode stored for a path resolves to it until an unlink or rmdir names that path |
| TableRuns.PathKeptUntilRemoved | examples/nodefs.js:29-421 | An inode keeps the path it resolves to, the root's included, until an unlink or rmdir names that path |
| TableRuns.ReadDirAgreesWithLookup | src/node_fuse.cc:91 | Wherever a readdir and a lookup stand in a run, if they find the same parent path and join the name alike, the lookup replies the inode of the decoded entry |
| TableRuns.ListingOverRuns | examples/nodefs.js:306-325 | Two readdir callbacks of a run, the second at the offset of the last entry got, with anything but a removal of the directory in between: "..", "." and every name the directory holds once and in order, then an empty reply, iff the records fit, else nothing; and each listed inode resolves at the second one unless its path was removed |
| TableRuns.ListedInodesResolve | examples/nodefs.js:313-322 | In the table a readdir callback leaves, even one that breaks off, each listed path resolves from its inode in a collision-free universe |
| TableRuns.ListingKeepsDirectory | examples/nodefs.js:318 | In the table a readdir callback leaves, the directory is still at its inode unless another listed path has that inode |
| Pipeline.RepliesExact | src/proxy.cc:186-195 | At any time in any unintruded run, the messages sent in answer to a request are, in order, exactly those of its handler and then that of its completed read; none before it is dispatched |
| Pipeline.ReadReplyIs | examples/nodefs.js:273-275 | The reply of a read carries the bytes with which it completed while it was open |
| Pipeline.AnsweredOnceOverRuns | src/proxy.h:63-66 | For every sequence of steps of both threads and completed reads, once all is dispatched or the process has ended: the replies to a request are its handler's and then its read's if no handler before it ended the process, else none; there is exactly one iff it is reached, answerable at its turn, and its read, if any, has completed; Init and Destroy get none |
| Pipeline.LaterUnanswered | src/proxy.h:63-66 | After a handler that ends the process no later request is ever answered |
| Pipeline.SetXAttrSilences | examples/nodefs.js:364-366 | A session that begins with setxattr answers nothing after it |
| Pipeline.FairProcessEnds | src/bindings.cc:107-126 | Every fair run serves all requests and completes all reads, or a handler has ended the process |
| Pipeline.EveryRequestAnswered | src/bindings.cc:107-126 | The same replies and the same iff for every fair run with an atomic take, and with split loads unless a store intrudes, with nothing assumed to have been served |
| Pipeline.QuietSessionAnswered | src/bindings.cc:107-126 | If no handler ends the process, every fair run with an atomic take dispatches all requests and completes all reads; each request gets exactly its handler's replies, or the bytes of its read, and exactly the answerable ones get one |

## Left out

- AsyncChannel.Session.TakeRecord: the clear by libuv and both loads in one step; `AsyncCallback` has them apart.
- Marshalling.Pack: SetXAttr's array has the six slots the code writes on Linux; the literal at src/filesystem.cc:416 allocates five.
- Marshalling.PackXAttr: the same deviation for SetXAttr.
- Marshalling.RoundTrip: strings other than Lookup's name, data and structs are values; the code stores pointers into libfuse's memory and their lifetimes are not modelled. The receive buffer is modelled by its Lookup name only.
- Replies.Reply.AddDirEntry: the argument type checks and the EIO reply after a failed empty reply are not modelled; nothing is said of a reply after a write outside its buffer.
- Handlers.HandleIs: the handlers read an argument of a kind the binding never passes as no inode or an empty name.
- Answers.InodeCarriedIff: inode numbers of 2^63 and more convert modulo 2^64; what V8 makes of such doubles is not modelled.
- Pipeline.AnsweredOnceOverRuns: counts the calls of `fuse_reply_*`, which are assumed to succeed; that libfuse sends only the first of them to the kernel is assumed where a client reads a listing. An exit takes effect at once in both threads.
- Except for the directory buffer, allocation always succeeds; block numbers follow the order of allocation and are never used again.
- `path.join`, UTF-8 conversion, malloc's answer for the directory buffer and the results of `fs` calls are unknown functions for each request; an exception is a missing result.
- Forget and ForgetMulti: they bypass the handoff and send no reply; the Forget handler is only a name in the dispatch chain.
- V8 handles, symbols, object wrapping, exception reporting, event emission: foreign runtime.
- Mounting, option parsing, signal handlers, the `Fuse` destructor, unmount: the model starts with a running session.
- FileInfo accessors, flag decoding, GetAttrsToBeSet, statvfs and lock conversion: field-by-field copies that would add only easy members.
- `fuse.js` and the loopback example: constants and fixed replies.
- The Apple variants of setxattr and getxattr.
- Paths left in the table by a rename and paths outside the root: the code neither removes nor confines them, so nothing is claimed.
