# p9 in Dafny

A model of the 9P2000.L client and server in `p9/`, of the vectored reader in `vecnet/`, and of the identifier and paging
helpers in `fsimpl/`, with proofs of what they promise. `dafny verify dfyconfig.toml` checks everything.

## How it is laid out

**The server's fids and path tree.** `Objects` holds the heap classes `File` (a backing file that keeps its own path, as
localfs does), `FidRef` and `PathNode`. `Bookkeeping` defines `Store`, the server's whole state as one value,
and `Inv`, the invariant: the node map is a tree in which the deleted nodes are exactly the unreachable ones, the two
child-reference maps of each node mirror each other, every live undeleted reference is registered with its parent under the
name of its own node, parent chains end, every count is the number of fid-table entries plus live children plus references
held by the running handler, every file was closed once per dead reference, and every file's path leads from the root to
its reference's node. `Forest` and `Reshape` carry the tree reasoning (cut, graft, mark). `Handlers` gives each request as a
step on a `Store`; a reply of `Panic` stands for any of the source's "should not happen" panics. `Safety` and `Runs` show that
`Inv` survives every request of every run and that `Panic` is never the reply. `Consequences`, `Moves` and `Walks` draw the
conclusions, and `Outcomes` says of every request when it succeeds, what it then leaves, and what it answers otherwise. `ServerHeap` and `ServerHandlers` are the same operations on the real mutable heap, each method proved
to do to the heap exactly what the step on `Store` says, and `Service` runs any list of requests on it and shows that the heap
goes through a run of the model; `Telling`, `Interleave` and `Renaming` hold the reasoning for rename, where
the code re-parents, notifies, and drops references one at a time while references die in between.

**The wire.** `Wire`, `Records` and `Messages` describe all 65 message types; `Codec` has the round trip; `Transport`
specifies framing; `Layout` gives the protocol's own tables and shows every frame to follow them, and `Vectors` spells frames out; `Buffers`, `Connections` and `Recycling` are the imperative reader, writer, send and recv; `Vectored` has the two
scatter-read loops.

**Concurrent protocols as step machines.** `Demux` (client tags, pending table and receive token), `Receivers` (server goroutines),
`Locks` (`renameMu` and `opMu`, with writer preference as in Go's RWMutex), `FidAgreement` (fid pool against fid table).

**Transfers and numbers.** `Pools`, `Chunks`, `Sizes`, `Attributes` (the server's side of extended
attributes), `Xattrs` (the client's), `Readdirs`, `Versions`, `Identifiers`; `Options` holds what they share.

## Where the code does not do what one might expect

The model follows the code, not its comments.

- `recv` is documented to return the "no tag" value with an error; on a lookup error it returns the tag it read
  (p9/transport.go:137-245).
- The comment in `tversion` speaks of answering EAGAIN to a newer version; the code lowers the version to 7
  (p9/handlers.go:47-114).
- The path-tree comment says that two nodes are only locked under the write lock of `renameMu`; `tunlinkat` locks parent and
  child under its read lock (p9/handlers.go:554-605). `Locks` shows that this cannot deadlock.
- `clientFile.Lock` never sets the fid it sends, so it sends fid 0, which no client file ever has (`FidAgreement.Guarantees`).
- The fallback table of `localToQid` is keyed by pointer, so a file whose numbers do not fit side by side in 63 bits gets a new number at every
  call (`Identifiers.NumbersApart` states exactly when a number comes back).
- `tread` on an extended attribute takes its buffer from a pool that does not exist before a Tversion, computes the end of the
  range in 64 bits without a check for wrap-around, and copies into a buffer of the negotiated message size without comparing
  the count with it; in each case the handler panics, and the server answers EFAULT. `Attributes.ReadRange` gives the exact
  condition and `Attributes.ReadsCrash` the smallest cases; the requests of this client never meet it (`Xattrs.GetXattr`).
- Neither `treaddir` nor the client's `Readdir` compares the count with the message size, so a large count on a large directory
  yields a page that the client's `recv` refuses, which ends the connection. `Readdirs.PageOutcome` gives the exact condition
  and `Readdirs.LargeCountLost` a case.
- `Close` and `Remove` give a fid up whenever the request fails, also when it was never sent for want of a tag; the server then
  keeps the fid bound (`FidAgreement.AbandonedStaysBound`).
- walk(5) of the Plan 9 manual answers a partial walk with the QIDs so far; this server fails it as a whole, and
  `Walks.FailedWalkInvisible` shows that it then leaves no trace.

## Model

| member | source | states |
|---|---|---|
| `Objects.PathNode.NameFor` | p9/path_tree.go:118-131 | the name a registered reference has; the panic is the precondition, discharged by every caller |
| `Objects.PathNode.AddChild` | p9/path_tree.go:134-159 | both maps gain the reference and still mirror each other; the panic is the precondition |
| `Objects.PathNode.RemoveChild` | p9/path_tree.go:163-186 | both maps lose the reference and still mirror each other; the panic about the mirror map is unreachable |
| `Objects.PathNode.AddPathNodeFor` | p9/path_tree.go:191-201 | the node hangs at a name that was free |
| `Objects.PathNode.RemoveWithName` | p9/path_tree.go:211-238 | exactly the references of that name are forgotten, in both maps, and the child node is cut and returned |
| `Objects.FidRef.TryIncRef` | p9/server.go:257-270 | takes a reference exactly when the object is alive |
| `Bookkeeping.DecRefKeeps` | p9/server.go:225-253 | dropping a held reference, with the chain of deaths it may set off along the parents, keeps the invariant and gives back exactly one hold |
| `Forest.Detach` | p9/server.go:293-310 | cutting a live edge and marking what hung from it leaves a tree whose deleted nodes are the unreachable ones; the marked set is new and excludes the parent and the root |
| `Forest.Moved` | p9/server.go:332-354 | moving a subtree keeps the tree and deletes nothing, unless the target lies in the subtree |
| `Forest.Carried` | p9/server.go:332-354 | every node of a moved subtree is found at the new path with the same remainder |
| `Safety.WalkKeeps` | p9/handlers.go:1291-1324 | Twalk keeps the invariant, leaks no reference and does not panic |
| `Safety.AttachKeeps` | p9/handlers.go:235-293 | the same for Tattach, with or without names |
| `Safety.OpenKeeps` | p9/handlers.go:303-342 | the same for Tlopen |
| `Safety.CreateKeeps` | p9/handlers.go:345-401 | the same for Tlcreate, which moves the fid to the new file without taking another reference |
| `Safety.UnlinkKeeps` | p9/handlers.go:554-605 | the same for Tunlinkat |
| `Safety.RemoveKeeps` | p9/handlers.go:169-227 | the same for Tremove, nameFor's panic included |
| `Safety.ClunkKeeps` | p9/handlers.go:156-166 | the same for Tclunk |
| `Safety.XattrWalkKeeps` | p9/handlers.go:962-1014 | the same for Txattrwalk, whose fid shares its source's file and has no parent |
| `Safety.RenameAtKeeps` | p9/handlers.go:498-551 | the same for Trenameat: neither addChildLocked nor addPathNodeFor panics |
| `Safety.RenameKeeps` | p9/handlers.go:608-669 | the same for Trename: also the "parent deleted, child is not" panic is unreachable |
| `Safety.StopKeeps` | p9/server.go:591-607 | the same for dropping the fids of a connection, in any order |
| `Safety.RenameChildKeeps` | p9/server.go:332-354 | renameChildTo keeps the invariant and does not panic, for every order in which the map yields the moved references |
| `Runs.StepKeeps` | p9/handlers.go:47-1324 | no request on any fid breaks the invariant, leaks a reference or panics |
| `Runs.RunKeeps` | p9/path_tree.go:118-238 | in every state of every run of requests from any connections the invariant holds, and none of the four path-tree panics or trename's happens |
| `Consequences.PathRefinement` | fsimpl/localfs/localfs.go:102-121 | in every reachable state a live undeleted reference's file holds the one and only path from the root to the reference's node; walk, create and rename all keep this |
| `Consequences.AllClosed` | p9/server.go:591-607 | once no fid is bound, no reference is alive and every unshared file has been closed exactly once |
| `Consequences.ClosedWhenDead` | p9/server.go:225-253 | an unshared file has been closed once if its reference is dead and not at all if it is alive |
| `Consequences.UnlinkDeletes` | p9/handlers.go:554-605 | a granted unlink deletes exactly the subtree at the name, or the node made to lock it; a failed one deletes nothing |
| `Consequences.RemoveDeletes` | p9/handlers.go:169-227 | a granted remove deletes exactly the subtree of the fid's node |
| `Consequences.RenameAtDeletes` | p9/handlers.go:498-551 | a granted rename deletes exactly the subtree it overwrites, and nothing when a name is renamed to itself |
| `Consequences.RenameDeletes` | p9/handlers.go:608-669 | the same for Trename |
| `Consequences.DeletionPermanent` | p9/server.go:293-310 | no request revives a deleted node, and the root is never deleted |
| `Moves.RenameAtMoves` | p9/handlers.go:498-551 | after a Trenameat that succeeded (`Outcomes.RenameAtDone` says when) the entry's node hangs at the new name and no longer at the old one, no other edge changed, everything below it is where it was relative to it, and every live reference below it holds the target's path, the new name and the old remainder |
| `Moves.RenameMoves` | p9/handlers.go:608-669 | the same for Trename, where the moved entry is the fid's own node |
| `Walks.FailedWalkInvisible` | p9/handlers.go:1187-1324 | a walk that fails at any element leaves every count, registration, fid, path and open flag as it was, and every file it opened closed exactly once |
| `Walks.WalkReaches` | p9/handlers.go:1187-1324 | a successful walk of n names answers n QIDs in order, binds the new fid and no other to a new reference whose node is found by following the names, and whose file holds the old path followed by the names |
| `Walks.CreateReaches` | p9/handlers.go:345-401 | a successful create moves the fid, and no other, to a new open reference, not a directory, whose node is the directory's child of that name and whose file holds the directory's path and the name |
| `Walks.WalkComposes` | p9/handlers.go:1187-1288 | walking a and then b, and dropping the stop in between, gives the state, reference and QIDs of walking a followed by b; where either part fails the whole fails with its error, or with EINVAL for an unsafe name in b |
| `Outcomes.OpenDone` | p9/handlers.go:303-342 | an open of a bound, undeleted, openable reference that is not open, not a directory opened for writing, and granted, answers the QID and marks exactly that reference open |
| `Outcomes.OpenFails` | p9/handlers.go:303-342 | any other open changes nothing and answers EBADF, EINVAL, EISDIR or the backing error, for the first guard that fails |
| `Outcomes.OpenTwice` | p9/handlers.go:322-340 | after a successful open every further open of the fid fails with EINVAL |
| `Outcomes.NothingStops` | p9/handlers.go:1230-1288 | nothing stops a walk if and only if it starts from an undeleted directory, all elements are granted, and all but the last are directories |
| `Outcomes.WalkDone` | p9/handlers.go:1291-1324 | a walk of safe names that nothing stops, not of an open fid onto itself, succeeds with the granted QIDs; the new reference has the last answer's kind and is not open |
| `Outcomes.WalkFails` | p9/handlers.go:1291-1324 | any other walk of names answers EBADF, EBUSY, EINVAL or the error of the first element that stops it, and goes unnoticed |
| `Outcomes.CloneDone` | p9/handlers.go:1198-1228 | a granted walk of no names answers no QIDs and binds the new fid, and no other, to a new reference with the same node, kind and parent, registered under the same name unless deleted, not open, whose new file holds the same path |
| `Outcomes.CloneFails` | p9/handlers.go:1291-1324 | any other walk of no names changes nothing and answers EBADF, EBUSY or the backing error |
| `Outcomes.AttachRootDone` | p9/handlers.go:235-273 | a granted attach without names binds the key, and no other, to a new reference to the root with an empty path, and answers the root's QID |
| `Outcomes.AttachDone` | p9/handlers.go:235-293 | a granted attach of safe names that nothing stops binds the key, and no other, to a new reference at the node the names lead to from the root, whose file holds the names, and answers the root's QID |
| `Outcomes.AttachFails` | p9/handlers.go:235-293 | any other attach goes unnoticed and answers the backing error, EINVAL, or what stops the walk |
| `Outcomes.CreateDone` | p9/handlers.go:345-401 | a granted create of a safe name below an undeleted directory that is not open answers the QID granted, and the new reference's parent is the directory's |
| `Outcomes.CreateFails` | p9/handlers.go:345-401 | any other create changes nothing and answers for the first guard that fails |
| `Outcomes.UnlinkDone` | p9/handlers.go:554-605 | a granted unlink of a safe name below such a directory succeeds and leaves exactly the tree without the entry, what hung there deleted |
| `Outcomes.UnlinkFails` | p9/handlers.go:554-605 | any other unlink answers for the first guard that fails, and leaves at most the node made for the lock |
| `Outcomes.RemoveDone` | p9/handlers.go:169-227 | a granted remove of an undeleted reference with a parent cuts the entry its node hangs at, deletes what hung there, and clears the fid |
| `Outcomes.RemoveFails` | p9/handlers.go:169-227 | any other remove only clears the fid, and answers for the first guard that fails |
| `Outcomes.ClunkEnds` | p9/handlers.go:156-166 | a clunk clears its fid and answers what became of the pending attribute; of an unbound fid, EBADF |
| `Outcomes.StopClears` | p9/server.go:591-607 | the end of a connection unbinds exactly its fids |
| `Outcomes.XattrWalkDone` | p9/handlers.go:962-1014 | a granted walk to an attribute binds the new fid, and no other, to a new reference with the same node and file, no directory, without parent |
| `Outcomes.XattrWalkFails` | p9/handlers.go:962-1014 | any other such walk changes nothing and answers EBADF, EINVAL or the backing error |
| `Outcomes.RenameAtDone` | p9/handlers.go:498-551 | a granted, legal Trenameat of safe names between bound, undeleted directories, the source not open, succeeds; the entry has moved as `Moves.HasMoved` says, or, if nobody ever walked to it, only what had the new name is gone |
| `Outcomes.RenameAtSame` | p9/handlers.go:521-536 | a name renamed to itself is left alone |
| `Outcomes.RenameAtFails` | p9/handlers.go:498-551 | any other Trenameat changes nothing and answers for the first guard that fails |
| `Outcomes.RenameDone` | p9/handlers.go:608-669 | a granted, legal Trename of an undeleted reference with a parent into an undeleted directory succeeds and moves the fid's own entry |
| `Outcomes.RenameSame` | p9/handlers.go:651-655 | a fid that is where it is to go is left alone |
| `Outcomes.RenameFails` | p9/handlers.go:608-669 | any other Trename changes nothing and answers for the first guard that fails |
| `Outcomes.LeadingRefused` | p9/handlers.go:123-128 | "", ".", ".." and names with a slash are refused with EINVAL by create, unlink and both renames, and nothing changes |
| `Outcomes.LeadingStops` | p9/handlers.go:1187-1195 | as an element of a walk or an attach such a name makes it fail |
| `ServerHeap.Server.constructor` | p9/server.go:65-75 | a new server is the empty store the runs start from |
| `ServerHeap.Server.DecRef` | p9/server.go:225-253 | the recursion over the heap, with its closes and deregistrations, is the model's, and it ends because parent chains do |
| `ServerHeap.Server.NotifyDelete` | p9/server.go:293-300 | marks exactly the nodes below the given one |
| `ServerHeap.Server.MarkChildDeleted` | p9/server.go:305-310 | cuts the name and marks exactly what hung there |
| `ServerHeap.Server.NotifyNameChange` | p9/server.go:317-327 | after the recursion every reference registered in the subtree has told its file the path that follows from its parent's, and no other file changed |
| `ServerHeap.Server.MoveRefs` | p9/server.go:332-354 | the loop that takes each live reference off its list, drops its old parent, and registers it with the new one visits each exactly once, although dropping a parent may kill other references |
| `ServerHeap.Server.RenameChildTo` | p9/server.go:332-354 | the whole in-place rename computes the model's rename: references moved, subtree hung at the new name, every path updated, dropped parents closed |
| `ServerHandlers.GrowNode` | p9/path_tree.go:91-115 | pathNodeFor: the child node of that name, made and hung only if there was none, keeping the invariant |
| `ServerHandlers.LookupMore` | p9/server.go:386-398 | null exactly when the fid is unbound, else the bound reference with one more hold |
| `ServerHandlers.Insert` | p9/server.go:401-412 | the table takes its own reference and drops the one the slot held, keeping the invariant |
| `ServerHandlers.Delete` | p9/server.go:415-424 | a bound fid goes and its reference is dropped; an unbound one changes nothing |
| `ServerHandlers.WalkElements` | p9/handlers.go:1230-1288 | the loop over path elements is the model's walk over the answers the backing files gave, keeps the invariant, and never panics |
| `ServerHandlers.Clone` | p9/handlers.go:1198-1228 | the clone branch is the model's: registered beside its source unless deleted, with a hold on the parent |
| `ServerHandlers.Walk` | p9/handlers.go:1291-1324 | Twalk on the heap is the model's Twalk with the backing answers given and with steps whose objects are all new and distinct, and keeps the invariant |
| `ServerHandlers.Attach` | p9/handlers.go:235-293 | Tattach on the heap is the model's, with a root and steps whose objects are all new and distinct, and keeps the invariant |
| `ServerHandlers.Open` | p9/handlers.go:303-342 | Tlopen on the heap is the model's, and keeps the invariant |
| `ServerHandlers.Create` | p9/handlers.go:345-401 | Tlcreate on the heap is the model's, with a step whose objects are new, and keeps the invariant |
| `ServerHandlers.Unlink` | p9/handlers.go:554-605 | Tunlinkat on the heap is the model's, with a new node for the lock, and keeps the invariant |
| `ServerHandlers.Remove` | p9/handlers.go:169-227 | Tremove on the heap is the model's, and keeps the invariant |
| `ServerHandlers.RenameAt` | p9/handlers.go:498-551 | Trenameat on the heap is the model's for an order that lists each moved reference once, whatever the move, and keeps the invariant |
| `ServerHandlers.Rename` | p9/handlers.go:608-669 | Trename on the heap is the model's for such an order, whatever the move, and keeps the invariant |
| `ServerHandlers.Clunk` | p9/handlers.go:156-166 | Tclunk on the heap is the model's, and keeps the invariant |
| `ServerHandlers.XattrWalk` | p9/handlers.go:962-1014 | Txattrwalk on the heap is the model's, with a new reference, and keeps the invariant |
| `ServerHandlers.Stop` | p9/server.go:591-607 | clearing a connection's fids on the heap is the model's, and keeps the invariant |
| `Service.NamesBack` | p9/handlers.go:241-247 | safe names joined by slashes, with a leading one or without, are the elements an attach walks |
| `Service.RootNames` | p9/handlers.go:241-273 | an empty name and a single slash attach the root |
| `Service.EmptyElement` | p9/handlers.go:272-282 | an empty element between two slashes is kept, and is not a safe name |
| `Service.ClunkAttribute` | p9/handlers.go:130-166 | Tclunk on the heap with the pending attribute: what is asked of the backing file, EINVAL for a wrong length, the backing error, or success, and the fid cleared in every case |
| `Service.Handle` | p9/server.go:557-581 | every request on the heap is an allowed event of the model that carries the request and the backing answers, with the model's next state and reply |
| `Service.Serve` | p9/server.go:583-588 | any list of requests on the heap is a run of the model, state by state and reply by reply |
| `Service.Lifetime` | p9/server.go:591-624 | a new server's heap goes through a run from the empty store; no reply is a panic; in the end every live undeleted reference's file holds the path to its node in the heap's own tree, every unshared file was closed exactly if its reference is dead, and with no fid bound all are |
| `Buffers.Buffer.Consume` | p9/buffer.go:57-66 | takes the bytes if there are enough, else leaves them and sets the mark |
| `Buffers.Buffer.ReadField` | p9/buffer.go:86-180 | every read yields what the format says, with overflow sticky |
| `Buffers.Buffer.WriteField` | p9/buffer.go:183-253 | every write appends the field's bytes |
| `Records.PartsBack` | p9/p9.go:487-498 | reading back any list of written values yields them, with fids cut to 32 bits and permissions to twelve, and leaves what follows |
| `Records.Sticky` | p9/buffer.go:57-83 | once overflow is marked, no decoder clears the mark |
| `Messages.Shape` | p9/messages.go:185-203 | each of the 65 decoders expects the very fields its encoder writes |
| `Messages.Rebuilt` | p9/messages.go:185-203 | each decoder puts every field where the encoder took it from |
| `Codec.RoundTrip` | p9/messages.go:2225-2280 | decode after encode returns the message if and only if it is well formed: lengths under 65536, fids of 32 bits, permissions of twelve, a directory page that its count covers exactly; `Layout.Laid` says what travels in between |
| `Layout.Laid` | p9/p9.go:339-408 | every frame of every message, byte by byte, against tables that no encoder uses: length in bytes 0 to 3, the type number of the table in byte 4, tag in bytes 5 and 6, then each member at its offset with its width and value, and nothing else |
| `Layout.Places` | p9/buffer.go:86-120 | numbers are sums of bytes times powers of 256, lowest first |
| `Layout.SameNumber` | p9/p9.go:339-408 | the encoders' type numbers are the table's, for all 65 messages |
| `Layout.PartIs` | p9/p9.go:879-920 | QIDs, attributes, masks, file system statistics and directory entries have the members, widths and bits of their tables |
| `Vectors.RlerrorBytes` | p9/p9.go:342-342 | every byte of one Rlerror frame |
| `Vectors.TversionBytes` | p9/p9.go:381-381 | every byte of one Tversion frame |
| `Vectors.RversionBytes` | p9/p9.go:382-382 | every byte of one Rversion frame |
| `Vectors.TattachBytes` | p9/p9.go:385-385 | every byte of one Tattach frame |
| `Vectors.RattachBytes` | p9/p9.go:386-386 | every byte of one Rattach frame |
| `Vectors.TwalkBytes` | p9/p9.go:389-389 | every byte of one Twalk frame |
| `Vectors.RwalkBytes` | p9/p9.go:390-390 | every byte of one Rwalk frame |
| `Vectors.TlopenBytes` | p9/p9.go:345-345 | every byte of one Tlopen frame |
| `Vectors.RlopenBytes` | p9/p9.go:346-346 | every byte of one Rlopen frame |
| `Vectors.TlcreateBytes` | p9/p9.go:347-347 | every byte of one Tlcreate frame |
| `Vectors.RlcreateBytes` | p9/p9.go:348-348 | every byte of one Rlcreate frame |
| `Vectors.TgetattrBytes` | p9/p9.go:357-357 | every byte of one Tgetattr frame |
| `Vectors.TreaddirBytes` | p9/p9.go:365-365 | every byte of one Treaddir frame |
| `Vectors.TreadBytes` | p9/p9.go:391-391 | every byte of one Tread frame |
| `Vectors.RreadBytes` | p9/p9.go:392-392 | every byte of one Rread frame |
| `Vectors.TwriteBytes` | p9/p9.go:393-393 | every byte of one Twrite frame |
| `Vectors.RwriteBytes` | p9/p9.go:394-394 | every byte of one Rwrite frame |
| `Vectors.TclunkBytes` | p9/p9.go:395-395 | every byte of one Tclunk frame |
| `Vectors.RclunkBytes` | p9/p9.go:396-396 | every byte of one Rclunk frame |
| `Vectors.TremoveBytes` | p9/p9.go:397-397 | every byte of one Tremove frame |
| `Vectors.RremoveBytes` | p9/p9.go:398-398 | every byte of one Rremove frame |
| `Vectors.TrenameBytes` | p9/p9.go:353-353 | every byte of one Trename frame |
| `Vectors.RrenameBytes` | p9/p9.go:354-354 | every byte of one Rrename frame |
| `Vectors.TrenameatBytes` | p9/p9.go:377-377 | every byte of one Trenameat frame |
| `Vectors.RrenameatBytes` | p9/p9.go:378-378 | every byte of one Rrenameat frame |
| `Vectors.TunlinkatBytes` | p9/p9.go:379-379 | every byte of one Tunlinkat frame |
| `Vectors.TflushBytes` | p9/p9.go:387-387 | every byte of one Tflush frame |
| `Codec.StrictPrefixOverruns` | p9/buffer.go:57-83 | every strict prefix of the encoding of a message without payload overruns |
| `Codec.DirentsBack` | p9/messages.go:1620-1633 | the entry loop of Rreaddir finds exactly the entries encoded and stops |
| `Codec.CountChecked` | p9/messages.go:1097-1104 | a data message is decoded if and only if its count is the length of its payload |
| `Recycling.Recycled.DecodeNames` | p9/messages.go:185-193 | decoding names into a message from the cache gives what decoding into a new one gives |
| `Recycling.Recycled.DecodeQids` | p9/messages.go:222-231 | the same for QID lists |
| `Recycling.Recycled.DecodeEntries` | p9/messages.go:1620-1633 | the same for directory entries |
| `Transport.InSync` | p9/transport.go:137-245 | in every outcome but a connection error exactly the frame's size has left the stream |
| `Transport.Classified` | p9/transport.go:137-245 | which frames cost the connection, which are rejected with their tag, and which are invalid |
| `Transport.EarlyEnd` | p9/transport.go:137-145 | a stream that ends within a header costs the connection |
| `Transport.Resumes` | p9/transport.go:137-245 | a refused, short or undecodable frame does not disturb what follows it |
| `Transport.FrameReturns` | p9/transport.go:80-121 | a well-formed message that fits the receiver is received as sent |
| `Transport.FrameTooLong` | p9/transport.go:152-170 | one that does not fit ends the connection |
| `Transport.StreamReturns` | p9/transport.go:80-245 | any list of well-formed messages sent over a stream is received with the same tags, in order, with nothing left over or eaten |
| `Connections.Connection.Send` | p9/transport.go:80-121 | writes exactly the frame, whose bytes `Layout.Laid` gives |
| `Connections.Connection.Receive` | p9/transport.go:137-245 | the imperative recv has the specified outcome and leaves the specified rest, also when it reuses an old payload buffer |
| `Vectored.Socket.Receive` | vecnet/vecnet_linux.go:63-110 | one read puts a prefix of what is to come into the buffers in order, or fails with nothing read |
| `Vectored.Consume` | vecnet/vecnet_linux.go:47-55 | the inner loop drops the full buffers and trims the partly filled one, never past the end |
| `Vectored.ReadBuffers` | vecnet/vecnet_linux.go:28-58 | for every list of buffers, empty ones included, and every way the bytes arrive, the buffers hold a prefix of the stream and there is no error exactly when they are full |
| `Vectored.ReadEach` | vecnet/vecnet.go:35-54 | the same of the simple loop on any reader: a prefix of the stream is in the buffers, an unfilled buffer means an error, and an error with full buffers is one the reader reported together with bytes |
| `Vectored.SameBytes` | vecnet/vecnet.go:35-54 | the two loops, run on connections with the same bytes to come and any two ways of splitting them, leave the same bytes in buffers of the same total length and the same bytes unread when both succeed |
| `Pools.Pool.Get` | p9/pool.go:38-58 | a cached value, else the next one below the limit, else none |
| `Pools.TakeApart` | p9/pool.go:38-58 | what is handed out is in no one's use and within the limits |
| `Pools.ReturnApart` | p9/pool.go:61-65 | what is returned can be handed out again and nothing else changes |
| `Demux.StepKeeps` | p9/client.go:212-334 | every step of every interleaving of callers and server keeps the protocol's invariant |
| `Demux.Guarantees` | p9/client.go:212-334 | in every reachable state outstanding tags are distinct and never noTag, one caller at most receives, signalling never blocks, and each caller gets the reply to its own request with its type or an error |
| `Demux.NotStuck` | p9/client.go:264-285 | while a call is unfinished some step is possible: a waiter can take the free token |
| `Demux.RunsEnd` | p9/client.go:264-334 | without new calls every run is bounded, and where it ends without a refused reply every call has returned |
| `Receivers.StepKeeps` | p9/server.go:472-607 | every step of every interleaving of the goroutines keeps the invariant, with recvIdle and pendingWg exact |
| `Receivers.Guarantees` | p9/server.go:472-607 | until shutdown somebody is about to receive; no two handlers share a tag; ClearTag finds its tag; stop passes its wait only when every other goroutine is gone |
| `Receivers.NoReadAfterShutdown` | p9/server.go:472-520 | after a connection error nobody reads again |
| `Receivers.NotStuck` | p9/server.go:583-607 | until stop has passed its wait some goroutine can move |
| `Locks.StepKeeps` | p9/server.go:356-381 | every step of every interleaving keeps exclusion and the downward order of locking |
| `Locks.Guarantees` | p9/file.go:37-54 | a global operation runs alone, and a write on a node excludes every other operation on it |
| `Locks.NotStuck` | p9/handlers.go:567-600 | some lock can always be taken or released: waiting leads ever deeper into the tree |
| `FidAgreement.StepKeeps` | p9/client_file.go:31-57 | every step of every interleaving keeps pool and table in agreement |
| `FidAgreement.Guarantees` | p9/client_file.go:273-312 | open files hold distinct fids bound to them at the server; what the pool can hand out is unbound, so nothing is displaced; a lost fid cannot be handed out and is still bound exactly when no tag was left to send its clunk; fid 0 is never bound |
| `FidAgreement.LostForGood` | p9/client_file.go:273-312 | in every later state a lost fid is as it was and no other slot has it |
| `FidAgreement.AbandonedStaysBound` | p9/client.go:290-294 | a file closed while every tag is taken leaves its fid bound at the server |
| `FidAgreement.WalkBinds` | p9/handlers.go:1291-1324 | a walk binds its new fid and no other if it succeeds, and none if it fails |
| `FidAgreement.AttachBinds` | p9/handlers.go:235-293 | the same for an attach |
| `FidAgreement.XattrWalkBinds` | p9/handlers.go:962-1014 | the same for the walk to an attribute |
| `FidAgreement.ClunkUnbinds` | p9/handlers.go:156-166 | a clunk unbinds its fid and no other, whatever it answers |
| `FidAgreement.RemoveUnbinds` | p9/handlers.go:169-227 | so does a remove |
| `Chunks.ChunkedRead` | p9/client_file.go:330-404 | for every chunk size from 1 the buffer receives a contiguous prefix of the range; when the server never falls short it is all there is, with EOF exactly when the file ends on a chunk boundary before the buffer does |
| `Chunks.ChunkedWrite` | p9/client_file.go:330-422 | the file receives a prefix of the data as by one write; all of it when the server never falls short |
| `Chunks.OverwriteTwice` | p9/client_file.go:330-373 | two adjacent writes are one |
| `Sizes.Largest` | p9/messages.go:2256-2280 | largestFixedSize is Rgetattr's 153: no registered type has a larger fixed part |
| `Sizes.PayloadBounds` | p9/client.go:114-141 | the payload size is at least 1, leaves room for every fixed part, and is a multiple of the block above one block |
| `Sizes.PageFrame` | p9/messages.go:1635-1649 | a page takes its payload, at most the count asked for, and eleven bytes more |
| `Sizes.RequestsFit` | p9/client.go:169-169 | for sizes up to the maximum every Twrite sent, every Rread asked for and every directory page of at most the payload size fits the message size |
| `Attributes.Pending.Walk` | p9/handlers.go:969-1007 | the value is kept for reading unless the low 32 bits of its length exceed the limit; then nothing changes |
| `Attributes.Pending.Read` | p9/handlers.go:700-758 | a read of a walked attribute answers as `Attributes.ReadRange` describes |
| `Attributes.Pending.Write` | p9/handlers.go:796-804 | a write is accepted only at the end of what was gathered and within the declared size |
| `Attributes.Pending.Clunk` | p9/handlers.go:130-153 | what the clunk asks of the backing file |
| `Attributes.ReadRange` | p9/handlers.go:700-758 | a range is served, whole, if and only if it lies within the value and its count within the connection's read buffer; below the largest count the handler panics if and only if there is no such buffer yet, the range wraps around 64 bits into the value, or it lies within the value with a count above the buffer |
| `Attributes.ReadsCrash` | p9/handlers.go:700-758 | any read before a Tversion makes it panic, and so do a single byte at the last offset and two bytes with a buffer of one |
| `Attributes.Gathered` | p9/handlers.go:796-804 | the buffer is the concatenation of the accepted writes, for any list of writes |
| `Attributes.ClunkSets` | p9/handlers.go:130-153 | SetXattr receives exactly that concatenation when its length is the declared one, a removal is asked for when an empty value replaces, and otherwise nothing is called |
| `Attributes.WriteAndClunk` | p9/handlers.go:1017-1039 | Txattrcreate, any list of writes and Tclunk on one fid have exactly that effect, and each write is answered as it was taken |
| `Attributes.InOrder` | p9/handlers.go:796-804 | a value written in order in pieces of any sizes is accepted whole |
| `Attributes.WriteThrough` | p9/handlers.go:130-153 | hence it is what SetXattr receives |
| `Xattrs.GetXattr` | p9/client_file.go:88-148 | through Txattrwalk and the client's own chunk loop against the server's handler the client gets exactly the value, for every chunk size up to the message size, or EINVAL for a value over the limit |
| `Xattrs.ListReturns` | p9/client_file.go:100-116 | the joined list splits back into the names if and only if every name is non-empty and free of NUL |
| `Xattrs.ListXattrs` | p9/client_file.go:100-148 | the same through that transfer |
| `Readdirs.Readdir` | fsimpl/readdir/readdir.go:18-48 | the entries from the offset on, at most as many as asked for, each with the offset of the next |
| `Readdirs.LongestPrefix` | p9/messages.go:1635-1649 | an answer carries k entries if and only if k is the longest prefix that fits the byte count |
| `Readdirs.Cut` | p9/messages.go:1635-1649 | the encoder's loop produces that payload |
| `Readdirs.DecodesPrefix` | p9/messages.go:1620-1649 | the client decodes exactly that prefix |
| `Readdirs.PageOutcome` | p9/transport.go:137-170 | the client gets the page, exactly the entries that fit the count, if and only if its frame fits the message size; else it gets nothing, and the connection ends when the frame's length fits 32 bits |
| `Readdirs.ListAll` | p9/handlers.go:1042-1073 | for any counts and message size, resuming at the last decoded offset over real frames finds a prefix of the names, each once and in order, of the length and with the ending that `Readdirs.Expected` computes from the name lengths: complete, cut short by a count too small for a name, or broken by a page too long for a message |
| `Readdirs.SafeCounts` | p9/handlers.go:1042-1073 | the listing is complete for any counts from 24 plus the longest name up to the message size less eleven |
| `Readdirs.SmallDirectory` | p9/handlers.go:1042-1073 | and for any counts from 24 plus the longest name if the whole directory fits one message |
| `Readdirs.CompleteAll` | p9/handlers.go:1042-1073 | a listing is complete if and only if it found every name and a message can carry the empty page |
| `Readdirs.LargeCountBreaks` | p9/client_file.go:599-610 | a count of one MiB at the default message size breaks the listing of 3000 names of ten bytes at its first page |
| `Readdirs.LargeCountLost` | p9/transport.go:137-170 | the frame of that page is a connection error for the client |
| `Versions.RoundTrip` | p9/version.go:78-112 | every 32-bit version survives printing and parsing |
| `Versions.Agreed` | p9/handlers.go:47-114 | a client that asks for any 32-bit version gets it or the server's highest, in a form it can parse, with the smaller of its message size and the maximum |
| `Versions.UnknownAnswered` | p9/handlers.go:47-79 | the server answers "unknown" with no size if and only if the size asked for is zero or the version is neither 9P2000.L nor that name with a 32-bit decimal number; 9P2000 and 9P2000.u get it |
| `Versions.UnknownRefused` | p9/version.go:78-100 | "unknown" does not parse |
| `Versions.Negotiate` | p9/client.go:147-205 | the client settles on the highest version at which the server does not say to try again, and gives up exactly when it says so at every one |
| `Identifiers.Mapper.QidFor` | fsimpl/qids/qids.go:40-56 | type and version kept; the path is the one given before, or the generator's next |
| `Identifiers.SamePathSameFile` | fsimpl/qids/qids.go:25-56 | over any interleaving of calls on mappers that share a generator, two calls get the same path if and only if they ask the same mapper for the same path, and no path is 0 |
| `Identifiers.OrIsSum` | fsimpl/localfs/system_unix.go:86-110 | numbers whose bits do not meet are added by or, for every split point |
| `Identifiers.EncodesAs` | fsimpl/localfs/system_unix.go:80-110 | the masks, shifts and ors of the code accept exactly the pairs whose parts are below their limits, and place inode, minor and major number side by side |
| `Identifiers.LikelyInjective` | fsimpl/localfs/system_unix.go:71-118 | accepted pairs have equal numbers if and only if they are equal, all below the fallback numbers |
| `Identifiers.Fallbacks.LocalToQid` | fsimpl/localfs/system_unix.go:121-134 | the combined number when it fits, else the next fallback number |
| `Identifiers.NumbersApart` | fsimpl/localfs/system_unix.go:121-134 | over any run different files never share a number, and the same file gets its number again if and only if its numbers fit |

## Left out

- Handlers are atomic steps: interleavings of `childMu`, counts raced against a rename, and subtree marking without the descendants' `opMu` are not modelled. `Locks` covers `renameMu` and `opMu` only.
- The backing file system is an oracle that grants or refuses each operation. It refuses to move a directory into its own subtree or onto an ancestor of the source (`ServerHandlers.IllegalMove` decides this on the heap); paths are sequences of components, and a file system that disagrees with the server about names is not modelled.
- Consequences.PathRefinement: excludes fids made by `txattrwalk` and their clones, which share a file and have no parent; so do the close-once claims.
- Walks.WalkComposes: compares the two ways of walking when both parts have names; an empty part is a clone.
- Files that a failed GetAttr closes before any reference exists (in `tattach` and `walkOne`) are part of the oracle's refusal.
- Chunks.ChunkedRead: the server never returns more bytes than were asked for; the whole-range clause is for a server that never falls short. Chunks.ChunkedWrite likewise.
- Xattrs.GetXattr: for a connection that has negotiated its message size and carries no other error.
- Outcomes.OpenDone: whether a file of its kind can be opened (`CanOpen`) is an argument, since the model keeps of a mode only whether it is a directory.
- Demux.Guarantees: for runs without send or receive errors; after one, entries stay behind in the pending table.
- FidAgreement.Guarantees: for connections without transport errors; running out of tags is modelled.
- Readdirs.ListAll: for a static directory, as in fsimpl/readdir, with names under 65536 bytes; a directory that changes between pages is not modelled.
- Identifiers.SamePathSameFile: before the generator's 64-bit counter wraps; Identifiers.Fallbacks.LocalToQid likewise.
- Identifiers.LikelyInjective: assumes that major and minor numbers together tell devices below 2^32 apart.
- Handlers that only pass a request to the backing file (read, write of plain data, getattr, setattr, symlink, link, mknod, mkdir, readlink, statfs, lock, fsync).
- `tflush`, the client's use of the negotiated message size, sockets, contexts, logging, buffer pools, finalizers, `String()` methods, mode conversions, the template and compose file systems, and `cmd/p9ufs`.
