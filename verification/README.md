# A verified model of the Little Kernel's device tree library, scheduler, heap, timers, block layer and path normalizer

The Little Kernel (LK) is a small kernel that serves as a bootloader. This project models six of
its components in Dafny, each in the form the C code has, and proves what their callers rely on.

**Device tree library** (`lib/libfdt`). A device tree is stored flat in one byte buffer: header,
reservation block, structure block, strings block. `FdtTokens`, `FdtTree` and `FdtBlob` say what a
blob means: the structure block is the encoding of exactly one token sequence, balanced tokens are
exactly one tree, and `Holds(b, d)` says that the buffer `b` is a version 17 blob for the device
tree `d`, which its bytes determine. Every function is then a method on the buffer, an
`array<byte>`, with the C code's loops, moves and header stores:

- the readers (`FdtRead`, `FdtNodes`, `FdtProps`, `FdtParents`, `FdtPath`) are proved to return what
  the tree says, error codes included;
- each read-write function (`FdtSplice`, `FdtEdit`, `FdtStrings`, `FdtRw`, `FdtNodeRw`, `FdtLaws`,
  `FdtPack`) is proved to leave a blob that holds exactly the edited tree, and `FdtMeaning` says
  what each edit is in the decoded tree, where NOPs, filler and name offsets are gone: one entry or
  one child changes and all the rest means what it did; `FdtClients` puts two calls together: a node
  added and deleted again, a property set and read back, two set in a row, a path written and looked up;
- the in-place functions (`FdtWip`) are proved to mean the same as the deletions they stand for, and
  to leave every offset outside the property or node valid (`FdtPlaces`);
- the sequential writer (`FdtWork`, `FdtSw`, `FdtFinish`) is proved for whole runs: any well-nested
  calls that fit yield a blob that decodes to exactly the tree they describe.

In these methods `d`, `c` and `n` are ghost: the tree in the buffer, and a node with everything
around it. `Refers` asks of an offset that it be that node's or fail the node check;
`BoundaryRefers` shows that every token boundary can be so described.

**Scheduler** (`kernel/thread.c`, `mutex.c`, `event.c`, `dpc.c`). `Threads` and `Scheduling` model
each entry point, timer handler and interrupt as a step over run queues, bitmap, wait queues and
thread records, and prove over all runs that every thread is in exactly one place; `Switching` says
without those functions what each step does to queues, quanta and the choice of the next thread, and
how long a thread keeps the processor; `Waking` proves who decides what a blocked thread is told.
`Kernel` is the same as a class with the code's global variables, each method proved to make its step.
`Mutex`, `Event` and `Dpc` build on it: worlds made of the scheduler and one object, invariants over
all interleavings, and classes with the code's fields; `Stranding` follows the one way in which a
mutex goes wrong, from boot. A context switch is a change of the current
thread; a call that blocks is split where the processor changes hands.

**Heap** (`lib/heap/heap.c`). A zone with its address-ordered free list, and as ghost state the
tiling of the heap into free chunks and live blocks, from which the headers in front of live
pointers are derived.

**Timers** (`kernel/timer.c`). The sorted queue with wrap-around time. Callbacks are an arbitrary
script of set and cancel calls. `Arming` follows one timer through calls and ticks: cancelled, it is
out until it is set again.

**Block cache and block I/O** (`lib/bcache`, `lib/bio`). The cache refines a plain array of blocks,
`Logical`, and `CacheDevice` is that array over a device's bytes. Byte access over blocks, the direct memory device and stacks of subdevices all come down
to slices of the root device.

**Path normalizer** (`lib/fs/fs.c`). A loop with nine states over the buffer, against a stack of
fields.

## What the code does not promise

Some statements one would expect are false of the code. The model keeps the code as it is and says
exactly when they hold.

- `fdt_next_tag` moves forward unless a property's length is 0xfffffff4 (`NextTagAdvances`).
- `fdt_add_subnode` accepts the parent offset -1, which a failed lookup returns, and spoils the blob (`AddSubnode`).
- `fdt_create` accepts 40 to 47 bytes, and what it then makes is not a blob to write to (`Create`).
- The check that the blocks are in order adds in 32 bits; it is right exactly when no sum wraps
  (`OrderedIff`, `WrappedAccepted`).
- The writer's room check for a name is an unsigned comparison; it is right exactly for names no
  longer than what the strings leave of the buffer (`RoomCheck`). Its check for a reservation entry
  does not look at the strings: an accepted entry leaves a blob exactly when there is room beside
  them (`AddReserveEntry`, `StringsOverrun`).
- `fdt_path_offset` of a node's path finds the node exactly when no earlier sibling answers to the
  name of the node or of one around it (`PathRoundTrip`).
- `thread_resume` keeps every thread in one place exactly for suspended and runnable threads
  (`ResumeInv`); on a blocked or sleeping one the thread is in two places afterwards.
- `thread_unblock_from_wait_queue` with rescheduling loses the current thread
  (`UnblockReschedLoses`), and its early return leaves the critical section entered (`ThreadUnblock`).
- With timed acquires a mutex can be left with a waiter and no owner, for good (`WaitersOwnedIff`,
  `StrandedStays`, `StrandedFromBoot`): a thread that has timed out keeps its count until it runs, and
  who acquires in between waits for nobody. Mutual exclusion holds always.
- `fdt_get_path` steps back over the root's own name, to bytes ahead of its output buffer, exactly for
  offsets from the end of the root on (`GetPath`).
- A change written through a pointer of the block cache and not marked dirty is lost when the last
  reference goes and the slot is reassigned (`UnmarkedLost`).
- A subdevice's byte offset, the check of `bio_publish_subdevice` and the range check of block
  transfers are 32-bit computations (`ToParentRight`, `PublishNested`, `CheckBlocksRight`).
- `fs_normalize_path` does not keep every absolute path absolute: the root counts as a trailing
  slash, and ".." at the root takes the leading slash (`StaysAbsolute` says for which paths).

## Model

| member | source | states |
|---|---|---|
| BigEndian.EncBe | lib/libfdt/libfdt_env.h:15-24 | Bytes read as a number and written again are the same bytes: a stored word determines its bytes. |
| BigEndian.BeEnc | lib/libfdt/libfdt_env.h:15-24 | And the other way round: a number written as bytes and read back is the same number, so byte swapping loses nothing. |
| BigEndian.MemMove | lib/libfdt/fdt_rw.c:97-108 | The move within one buffer copies the old bytes even when the ranges overlap, and leaves every other byte alone. |
| FdtTokens.EncodeInjective | lib/libfdt/fdt.c:93-141 | A structure block is the encoding of at most one token sequence, so that reading it has one meaning. |
| FdtTokens.TagAtToken | lib/libfdt/fdt.c:93-141 | On a token boundary fdt_next_tag reports that token's tag and ends at the next boundary. |
| FdtTokens.TagAtNegative | lib/libfdt/fdt.c:77-141 | Every negative offset is reported truncated. |
| FdtTokens.TagAtEnd | lib/libfdt/fdt.c:77-141 | Past the last token the block is reported truncated. |
| FdtTokens.NextTagAdvances | lib/libfdt/fdt.c:93-141 | For arbitrary bytes: a successful fdt_next_tag moves forward exactly unless the token is a property whose length word is 0xfffffff4 (the 32-bit sum then wraps to zero). |
| FdtTokens.NextTagStuck | lib/libfdt/fdt.c:122-126 | A block on which it does not move forward. |
| FdtTree.ItemUnique | lib/libfdt/fdt.c:93-141 | Balanced tokens belong to at most one tree of nodes, properties and NOPs. |
| FdtTree.FlatPlug | lib/libfdt/fdt_rw.c:123-135 | A node's tokens stand as one stretch between those of its surroundings: editing a node is editing that stretch. |
| FdtTree.Locate | lib/libfdt/fdt.c:143-150 | Every BEGIN_NODE token is some node of the tree. |
| FdtTree.WalkNode | lib/libfdt/fdt.c:161-199 | From each node the loop of fdt_next_node goes to the next node in preorder with its right depth, and from the last one it leaves the tree: every node is visited once. |
| FdtTree.WalkItems | lib/libfdt/fdt.c:161-199 | The same among the children of one node. |
| FdtBlob.HoldsUnique | lib/libfdt/fdt.c:58-91 | A buffer holds at most one device tree: reservations, tree and strings are determined by its bytes. |
| FdtRead.NextTag | lib/libfdt/fdt.c:77-141 | The loops and range checks of fdt_next_tag compute its result for any bytes and any offset. |
| FdtRead.NextNode | lib/libfdt/fdt.c:161-199 | fdt_next_node returns the next node of the walk and its depth, for a node offset, a negative offset or a bad one. |
| FdtRead.CheckNodeOffset | lib/libfdt/fdt.c:143-150 | The check passes exactly aligned offsets of BEGIN_NODE tags and returns the offset behind the tag. |
| FdtRead.CheckPropOffset | lib/libfdt/fdt.c:152-159 | The check passes exactly aligned offsets of property tags. |
| FdtRead.CheckHdr | lib/libfdt/fdt.c:58-75 | The error codes of the header check, for finished and unfinished blobs. |
| FdtNodes.BoundaryRefers | lib/libfdt/fdt.c:143-150 | Any token boundary of a blob either is a node's offset or fails the node check, so that the functions below are stated for every such offset. |
| FdtNodes.NodenameEq | lib/libfdt/fdt_ro.c:58-76 | A node answers to its full name, and without '@' in the name asked for also to the part before its unit address. |
| FdtNodes.ItemsMatch | lib/libfdt/fdt_ro.c:132-149 | The first node at child depth that the walk finds to answer is the first such child in the tree; deeper nodes are no candidates. |
| FdtNodes.SubnodeOffset | lib/libfdt/fdt_ro.c:132-149 | fdt_subnode_offset_namelen returns the offset of the first child that answers to the name, or which error. |
| FdtNodes.NodeEndOffset | lib/libfdt/fdt_wip.c:97-105 | The end found lies just past the END_NODE that matches the node's BEGIN_NODE. |
| FdtProps.NextProp | lib/libfdt/fdt_ro.c:108-130 | The next property behind NOPs, or which of the three errors ends the search. |
| FdtProps.FirstPropertyOffset | lib/libfdt/fdt_ro.c:221-229 | The first property of a node, or the error of a bad offset. |
| FdtProps.NextPropertyOffset | lib/libfdt/fdt_ro.c:231-237 | The property after a property, or the error of an offset that is none. |
| FdtProps.BadPropToken | lib/libfdt/fdt.c:152-159 | On token boundaries the property check passes exactly at properties. |
| FdtProps.StringEq | lib/libfdt/fdt_ro.c:78-89 | Whether the NUL-terminated string at a name offset is the name given. |
| FdtProps.GetProperty | lib/libfdt/fdt_ro.c:260-290 | The property found is the first of that name before any child node; its offset, or NOTFOUND exactly when there is none. |
| FdtSplice.Splice | lib/libfdt/fdt_rw.c:92-108 | When the result fits, the bytes behind the gap have moved by the difference and header and bytes before it are as before; otherwise nothing changes. |
| FdtSplice.SpliceStruct | lib/libfdt/fdt_rw.c:123-135 | The same in the structure block, with the two header fields behind it adjusted. |
| FdtSplice.SplicedGrown | lib/libfdt/fdt_rw.c:97-135 | A splice of the structure block changes nothing but the data and the two header fields that say where it is. |
| FdtSplice.GrownTrans | lib/libfdt/fdt_rw.c:97-135 | The same of two splices in a row. |
| FdtSplice.RwCheckHeader | lib/libfdt/fdt_rw.c:58-83 | For any header: which error, the comparisons being those of 32-bit sums, and that only a newer version number is rewritten. |
| FdtSplice.OrderedIff | lib/libfdt/fdt_rw.c:58-68 | The blocks are in order and apart if and only if the comparisons say so and none of the three sums wraps. |
| FdtSplice.AcceptedOrdered | lib/libfdt/fdt_rw.c:70-83 | So of the headers that pass the check exactly those whose blocks end below 4 GB have their blocks in order. |
| FdtSplice.WrappedAccepted | lib/libfdt/fdt_rw.c:58-83 | A header that passes although its reservation block lies behind the other two: 16 bytes before 4 GB, where the sum wraps to zero. |
| FdtStrings.FindStringAt | lib/libfdt/fdt.c:201-211 | The first place at which the name with its terminator stands, perhaps as the end of another string. |
| FdtStrings.StringReused | lib/libfdt/fdt_rw.c:150-170 | A name is appended to the strings just when it stands nowhere in them, as the end of another name or by itself. |
| FdtStrings.AppendString | lib/libfdt/fdt_rw.c:137-148 | A string put behind the others leaves tree and reservations as they were, or nothing changes for want of room. |
| FdtStrings.WithStringNames | lib/libfdt/fdt_rw.c:150-170 | After a name is added it resolves, and every name that resolved resolves to what it did. |
| FdtStrings.FindAddString | lib/libfdt/fdt_rw.c:150-170 | Returns where the name stands, adding it only when it is not there, or NOSPACE with nothing changed. |
| FdtRw.ResizeProperty | lib/libfdt/fdt_rw.c:205-221 | Makes room for the new length inside the found property alone, and stores the length. |
| FdtRw.AddProperty | lib/libfdt/fdt_rw.c:223-249 | Makes room for a first property of the node and writes its header, the name being in the strings block; when that fails only the name may have been added. |
| FdtRw.SetProp | lib/libfdt/fdt_rw.c:274-290 | fdt_setprop: fails exactly when the blob has no room; on success the buffer holds exactly the tree with that property set (new ones first), the data has grown by exactly what that takes, and the total size, the other header fields and all bytes behind the data are as before; on failure no byte has changed, but for the name perhaps added to the strings. |
| FdtNodeRw.AppendProp | lib/libfdt/fdt_rw.c:292-317 | fdt_appendprop: as fdt_setprop, what stays included, with the bytes put behind the old value. |
| FdtNodeRw.DelProp | lib/libfdt/fdt_rw.c:319-332 | fdt_delprop: the buffer holds exactly the tree without that property, and nothing behind the data or in the other header fields changes; NOTFOUND when there is none. |
| FdtNodeRw.FindEnd | lib/libfdt/fdt_rw.c:360-366 | The counting loop stops at the END_NODE that closes the parent. |
| FdtNodeRw.AddSubnode | lib/libfdt/fdt_rw.c:334-381 | fdt_add_subnode_namelen: the new node is the parent's last child and nothing else changes; EXISTS and NOSPACE exactly when they should. One bad parent offset is not rejected: -1, the result of a failed lookup, puts the node one byte before the structure block and the root becomes unreadable. |
| FdtNodeRw.DelNode | lib/libfdt/fdt_rw.c:388-400 | fdt_del_node: the bytes of that node are cut out and the buffer holds exactly the tree without it. |
| FdtLaws.GetProp | lib/libfdt/fdt_ro.c:292-321 | fdt_getprop yields exactly the value bytes of the property found. |
| FdtLaws.SetThenGet | lib/libfdt/fdt_rw.c:274-290 | After fdt_setprop that name reads as the new value, every other name as before, and the node keeps its name and surroundings. |
| FdtLaws.PlaceKept | lib/libfdt/fdt_rw.c:274-290 | An edit inside a node leaves the node's own offset valid. |
| FdtLaws.AddThenFind | lib/libfdt/fdt_ro.c:132-149 | fdt_subnode_offset finds a node just added at the offset fdt_add_subnode returned. |
| FdtLaws.SpliceUndone | lib/libfdt/fdt_rw.c:388-400 | Cutting out what was spliced in restores every used byte and every header field. |
| FdtLaws.SetName | lib/libfdt/fdt_rw.c:251-272 | fdt_set_name: the same tree with the node renamed, total size and all behind the data as before, or NOSPACE with nothing changed. |
| FdtClients.AddThenDelete | lib/libfdt/fdt_rw.c:334-400 | Adding a subnode and deleting it again leaves header fields, reservations, structure and strings byte for byte as they were. |
| FdtClients.SetPlace | lib/libfdt/fdt_rw.c:274-290 | After fdt_setprop the same offset still is the node, now with that property, and passes the node check. |
| FdtClients.SetThenRead | lib/libfdt/fdt_ro.c:292-321 | fdt_setprop followed by fdt_getprop on the same buffer: the bytes just set under that name, what was there before under any other. |
| FdtClients.SetTwice | lib/libfdt/fdt_rw.c:274-290 | Two calls of fdt_setprop on one buffer: both succeed exactly when their growths together fit into the total size, and always when there is room for two names and properties. |
| FdtClients.PathAndBack | lib/libfdt/fdt_ro.c:357-407 | fdt_get_path followed by fdt_path_offset of what it wrote: back at the same offset if and only if nothing shadows the node. |
| FdtMeaning.PlugMeans | lib/libfdt/fdt_ro.c:260-321 | What a blob means is what a node means, set into what its surroundings mean. |
| FdtMeaning.FoundFirst | lib/libfdt/fdt_ro.c:260-282 | The property the reader finds is the first of its name in the decoded node. |
| FdtMeaning.FoundIff | lib/libfdt/fdt_ro.c:108-130 | When properties precede child nodes a property is found exactly when the decoded node has one of that name. |
| FdtMeaning.SetMeans | lib/libfdt/fdt_rw.c:274-290 | fdt_setprop seen in the decoded tree: that one entry replaced, or a new first entry; all other nodes, properties and names mean what they did, although the strings block grew. |
| FdtMeaning.AppendMeans | lib/libfdt/fdt_rw.c:292-317 | fdt_appendprop in the decoded tree: the value of that one entry extended. |
| FdtMeaning.DropMeans | lib/libfdt/fdt_rw.c:319-332 | fdt_delprop in the decoded tree: that one entry struck out. |
| FdtMeaning.SubnodeMeans | lib/libfdt/fdt_rw.c:334-381 | fdt_add_subnode in the decoded tree: one more, empty, last child. |
| FdtMeaning.NodeDroppedMeans | lib/libfdt/fdt_rw.c:388-400 | fdt_del_node in the decoded tree: that child gone from between its siblings. |
| FdtMeaning.RenamedMeans | lib/libfdt/fdt_rw.c:251-272 | fdt_set_name in the decoded tree: that node's name. |
| FdtMeaning.FailedMeans | lib/libfdt/fdt_rw.c:274-317 | A failed fdt_setprop or fdt_appendprop leaves the decoded tree and the reservations unchanged: at most a name has been added to the strings. |
| FdtWip.NopRegion | lib/libfdt/fdt_wip.c:75-81 | Fills whole words, up to three bytes past the length given. |
| FdtWip.NopsMeanGone | lib/libfdt/fdt_wip.c:83-118 | NOPs in place of anything mean the same as its absence, anywhere in a tree. |
| FdtWip.DecodePlug | lib/libfdt/fdt_wip.c:83-118 | A node replaced by one that means the same leaves the meaning of the whole tree alone. |
| FdtPlaces.AllStay | lib/libfdt/libfdt.h:935-983 | One item replaced by NOPs of its size: every token and every node outside it keeps its offset, so that the writes of fdt_nop_property and fdt_nop_node spare offsets found before. |
| FdtPlaces.SameEnd | lib/libfdt/fdt_wip.c:97-105 | Two nodes that start at the same token end at the same token, whatever follows. |
| FdtWip.NopProperty | lib/libfdt/fdt_wip.c:83-95 | fdt_nop_property changes no byte outside the property, and the tree means the same as after fdt_delprop. All other offsets stay valid: every token outside the property is the same token at the same offset and passes the node and property checks as before, and every node's offset is still that node's, changed by the NOPs alone. |
| FdtWip.NopNode | lib/libfdt/fdt_wip.c:107-118 | fdt_nop_node changes no byte outside the node, and the tree means the same as after fdt_del_node. All offsets outside the node stay valid, those of tokens and those of nodes, which are as they were or hold the NOPs. |
| FdtWip.SetPropInplace | lib/libfdt/fdt_wip.c:58-73 | A value of the same length is replaced, and no byte but its own changes; any other length is refused and nothing changes. |
| FdtPack.NumMemRsv | lib/libfdt/fdt_ro.c:99-106 | Counts the reservations before the terminator. |
| FdtPack.GetMemRsv | lib/libfdt/fdt_ro.c:91-97 | Entry n as it was reserved. |
| FdtPack.AddMemRsv | lib/libfdt/fdt_rw.c:172-187 | One more reservation at the end, tree and strings untouched, the other header fields and all behind the data as before; an entry of size zero becomes the terminator and reserves nothing. |
| FdtPack.DelMemRsv | lib/libfdt/fdt_rw.c:189-203 | Exactly reservation n goes; the later blocks move down and nothing else changes. |
| FdtPack.PackBlocks | lib/libfdt/fdt_rw.c:402-422 | Also within one buffer the moves to the left never clobber a block not yet moved: all three blocks arrive whole. |
| FdtPack.Pack | lib/libfdt/fdt_rw.c:488-500 | fdt_pack always succeeds, the tree is the same, the blocks are tight and the total size is their sum; no byte behind the packed blob changes. |
| FdtPack.PackIdempotent | lib/libfdt/fdt_rw.c:488-500 | Packing a packed blob changes no byte of it. |
| FdtPack.OpenInto | lib/libfdt/fdt_rw.c:424-486 | Into another buffer the tree comes over whole with its boot CPU, whichever order the blocks were in, and nothing behind the copy changes; NOSPACE exactly when the copy does not fit. |
| FdtParents.NodesPlug | lib/libfdt/fdt.c:161-199 | The preorder walk of the whole tree reaches each node after exactly the visits that its surroundings say, at its depth. |
| FdtParents.VisitsOrdered | lib/libfdt/fdt.c:161-199 | Later visits are at larger offsets: no node is visited twice. |
| FdtParents.LastAtAncestor | lib/libfdt/fdt_ro.c:409-443 | When the walk reaches a node, the last node it passed at depth k is the node's ancestor of that depth. |
| FdtParents.SupernodeAtDepth | lib/libfdt/fdt_ro.c:409-443 | The ancestor at the depth asked for, the node's depth, and which error for an offset of no node. |
| FdtParents.DepthOf | lib/libfdt/fdt_ro.c:445-454 | fdt_node_depth is the number of nodes around the node. |
| FdtParents.ParentOffset | lib/libfdt/fdt_ro.c:456-464 | fdt_parent_offset is the offset of the node around it; the root has none. |
| FdtPath.PathOffset | lib/libfdt/fdt_ro.c:157-199 | fdt_path_offset follows the names between the slashes, child by child, from the root. |
| FdtPath.GetName | lib/libfdt/fdt_ro.c:201-219 | The name of the node at that offset. |
| FdtPath.ChainIsNames | lib/libfdt/fdt_ro.c:357-407 | The names the walk keeps when it stands on a node are those from the root down to it. |
| FdtPath.GetPath | lib/libfdt/fdt_ro.c:357-407 | fdt_get_path writes the node's path with its terminator, NOSPACE exactly when it does not fit, BADOFFSET where no node starts, nothing past the buffer length given. Bytes ahead of the output buffer are read exactly for offsets from the end of the root on, with a length of two or more, first at index -1, or -2 when the root's own name does not fit. |
| FdtPath.ResolveNames | lib/libfdt/fdt_ro.c:132-199 | The names of a node lead back to it if and only if no earlier sibling of it or of a node around it answers to the same name. |
| FdtPath.PathRoundTrip | lib/libfdt/fdt_ro.c:157-199 | Looking up the path of a node gives the node's offset if and only if nothing shadows it (the '@' rule included). |
| FdtSw.Create | lib/libfdt/fdt_sw.c:88-108 | fdt_create: NOSPACE below the header's size; what it makes is a writable blob exactly from 48 bytes on (it accepts 40 to 47). |
| FdtSw.AddReserveEntry | lib/libfdt/fdt_sw.c:110-131 | Only before the first token, and refused exactly when the entry alone does not fit; an accepted entry leaves a blob if and only if there is also room beside the strings, which the check does not look at. |
| FdtSw.GrabSpace | lib/libfdt/fdt_sw.c:73-86 | Room is given exactly when tokens and strings would not meet, and nothing is overwritten. |
| FdtSw.BeginNode | lib/libfdt/fdt_sw.c:138-152 | The node is open afterwards, or NOSPACE with nothing changed. |
| FdtSw.EndOfNode | lib/libfdt/fdt_sw.c:154-166 | The innermost open node becomes the last item of the one around it, or the root. |
| FdtSw.RoomCheck | lib/libfdt/fdt_sw.c:181-184 | The unsigned comparison of _fdt_find_add_string tells whether the string fits if and only if the string is no longer than what the strings leave of the whole buffer. |
| FdtSw.FrontReused | lib/libfdt/fdt_sw.c:168-189 | The same for the string table of the sequential writer, at its front. |
| FdtSw.FindAddFront | lib/libfdt/fdt_sw.c:168-189 | Returns minus the distance of the name from the end of the table, adding it at the front only when it is not there; 0 with nothing changed when there is no room. |
| FdtSw.FrontNamed | lib/libfdt/fdt_sw.c:168-189 | The negative offset, stored in 32 bits, names the string from the end of the table, also when it is the tail of another one. |
| FdtSw.Property | lib/libfdt/fdt_sw.c:191-211 | One more property of the innermost open node; it fails exactly for want of room, and then the name has been added if it alone fits. |
| FdtSw.StringsOverrun | lib/libfdt/fdt_sw.c:110-131 | The calls that lead there: a property before the first node that does not fit leaves its name, and the reservation entry accepted next runs into it. |
| FdtWork.WorkGrow | lib/libfdt/fdt_sw.c:168-189 | A table that grows at its front leaves every name written so far what it was. |
| FdtWork.OpenedMeans | lib/libfdt/fdt_sw.c:138-152 | Opening a node, in the document being written. |
| FdtWork.PropMeans | lib/libfdt/fdt_sw.c:191-211 | Putting a property, in the document being written: its name resolves to the name given. |
| FdtWork.ClosedMeans | lib/libfdt/fdt_sw.c:154-166 | Closing a node, in the document being written. |
| FdtWork.RelocateMeans | lib/libfdt/fdt_sw.c:233-248 | Adding the final table size to a negative offset, in 32 bits, makes every name resolve to the name it was written with. |
| FdtWork.RunTree | lib/libfdt/fdt_sw.c:138-211 | The calls for a tree write exactly that tree. |
| FdtFinish.FixFlat | lib/libfdt/fdt_sw.c:233-248 | Correcting the tokens one by one is correcting the whole tree. |
| FdtFinish.FixNames | lib/libfdt/fdt_sw.c:233-248 | The loop corrects every property's name offset and changes no other byte of the tokens. |
| FdtFinish.MoveStrings | lib/libfdt/fdt_sw.c:226-231 | The table moves down to the end of the tokens, and neither is damaged. |
| FdtFinish.FinishedMeans | lib/libfdt/fdt_sw.c:213-256 | The finished tree, names resolved, is the document written. |
| FdtFinish.Finish | lib/libfdt/fdt_sw.c:213-256 | fdt_finish leaves a blob the readers accept that holds exactly what was written, its total size exact, its boot CPU 0; no byte behind the buffer given changes. |
| FdtFinish.Perform | lib/libfdt/fdt_sw.c:138-211 | Each call of a client does to the document what it should, and fails exactly for want of room. |
| FdtFinish.PerformAll | lib/libfdt/fdt_sw.c:138-211 | So does any well-nested sequence of calls; it runs out of space only if all of it together does not fit. |
| FdtFinish.WriteBlob | lib/libfdt/fdt_sw.c:88-256 | A whole run, from fdt_create to fdt_finish, of any well-nested calls that complete one root: it succeeds if and only if everything fits, and the blob then holds the reservations, decodes to exactly the tree the calls describe and has exactly that size; no byte behind the buffer given changes. |
| Heap.InsertBetween | lib/heap/heap.c:167-221 | A chunk given back goes between its neighbours in address order and merges with the next one when they touch. |
| Heap.InsertBehind | lib/heap/heap.c:167-221 | A chunk that touches the one before it merges with it, and then perhaps with the next. |
| Heap.TakeThenInsert | lib/heap/heap.c:246-404 | Taking from the first chunk that fits and giving it straight back restores the free list exactly. |
| Heap.TakenSound | lib/heap/heap.c:290-335 | An allocation splits one free chunk into a live block and perhaps a free rest, and changes nothing else of the heap. |
| Heap.FreedSound | lib/heap/heap.c:368-404 | A free turns one live block into free space merged with its free neighbours, which is one insertion into the free list, and removes that block's header alone. |
| Heap.FreeCoalesced | lib/heap/heap.c:167-221 | The free list is strictly address-ordered, inside the heap, word-aligned, and no two of its chunks touch. |
| Heap.Conserved | lib/heap/heap.c:237-404 | Free and live lengths always add up to the heap: nothing is lost. |
| Heap.AllFreeIsOne | lib/heap/heap.c:167-221 | A heap with nothing live has exactly the one initial chunk. |
| Heap.Zone.constructor | lib/heap/heap.c:406-435 | One free chunk over the whole range. |
| Heap.NeedIsRoom | lib/heap/heap.c:245-271 | The length looked for is the least multiple of 4 not below the request plus 12, plus 0, 16 or the alignment. |
| Heap.PowerIs | lib/heap/heap.c:241-243 | The alignments accepted beside 0 are exactly the powers of two. |
| Heap.PtrFits | lib/heap/heap.c:299-325 | A chunk of that length has room for header and request at the aligned place. |
| Heap.Zone.InsertFreeChunk | lib/heap/heap.c:167-221 | The walk and the two merges are that insertion, and the chunk returned holds the one given back. |
| Heap.Zone.Alloc | lib/heap/heap.c:237-344 | NULL exactly for a bad alignment or when every free chunk is shorter than the least multiple of 4 that holds the request and 12 bytes, plus 0, 16 or the alignment; otherwise the first long enough serves and is cut at exactly that length if more than 12 bytes stay; header and requested bytes lie in what was taken, at the first place that suits the alignment. |
| Heap.Zone.Release | lib/heap/heap.c:368-404 | heap_free gives back exactly the block its header describes; NULL does nothing. |
| Heap.Zone.AllocRelease | lib/heap/heap.c:237-404 | heap_alloc followed by heap_free leaves free list and headers as they were. |
| Heap.Zone.ReleaseAll | lib/heap/heap.c:368-404 | Freeing everything live, in any order, leaves the single initial chunk. |
| Heap.Zone.Reachable | lib/heap/heap.c:167-404 | In every reachable heap live blocks overlap neither each other nor free chunks, all lie inside the heap, and lengths add up. |
| RunBitmap.SetBit | kernel/thread.c:80-104 | Setting and clearing one priority's bit changes no other. |
| RunBitmap.ClzIsScan | kernel/thread.c:309-342 | Counting leading zeros finds the same queue as the disabled scan, from the highest priority down. |
| Threads.EnlistPlaced | kernel/thread.c:80-104 | Moving a thread from its wait queue or sleep into its run queue leaves every thread in one place. |
| Threads.ReschedPlaced | kernel/thread.c:283-377 | thread_resched never finds the bitmap empty, takes the head of the highest non-empty queue, changes no other thread, and leaves every thread in its place. |
| Threads.ReschedTakes | kernel/thread.c:283-377 | What a reschedule does to queues, records and quanta, said without it. |
| Threads.RemoveSplits | kernel/thread.c:862-892 | A thread taken out of a queue leaves the others in their order. |
| Threads.YieldInv | kernel/thread.c:388-485 | Yield, preemption and tick keep the invariant. |
| Threads.BlockInv | kernel/thread.c:690-723 | Blocking, with or without a timeout, and sleeping keep the invariant. |
| Threads.WakeOneInv | kernel/thread.c:739-774 | Waking the first waiter keeps the invariant, with and without rescheduling. |
| Threads.UnblockInv | kernel/thread.c:862-892 | thread_unblock_from_wait_queue without rescheduling keeps the invariant; on a thread not blocked it changes nothing. |
| Threads.UnblockReschedLoses | kernel/thread.c:862-892 | With rescheduling it always loses the current thread, which is put into no run queue (unlike in the wait queue functions): it is safe only without. |
| Scheduling.WakeEachDoes | kernel/thread.c:791-832 | The loop wakes every waiter with that result, empties the queue and touches nobody else. |
| Scheduling.WakeAllInv | kernel/thread.c:791-832 | Waking all keeps the invariant. |
| Scheduling.ResumeInv | kernel/thread.c:193-210 | thread_resume keeps each thread in one place if and only if the thread is suspended or already runnable. |
| Scheduling.DoInv | kernel/thread.c:140-892 | Every scheduler entry point, timer handler and interrupt keeps the invariant. |
| Scheduling.InitialInv | kernel/thread.c:536-557 | It holds at boot. |
| Scheduling.RunInv | kernel/thread.c:140-892 | So it holds in every reachable state. |
| Scheduling.OnePlace | kernel/thread.c:80-104 | Each thread is in exactly the one place its state says, once; each wait queue's count is its length; no quantum exceeds 5. |
| Scheduling.StepTells | kernel/thread.c:690-723 | No step of anyone else changes the result a woken thread is to see. |
| Scheduling.RunTells | kernel/thread.c:690-723 | Over any run, what a woken thread is to be told stays so until it next gets the processor. |
| Waking.StepDecides | kernel/thread.c:658-892 | A step wakes a blocked thread if and only if it is its own timeout, a wake of its queue with the thread first, a wake of its whole queue or an exit that signals it, and then with that step's result; after any other step it waits in the same queue. |
| Waking.FirstDecides | kernel/thread.c:658-723 | Over any run from a state in which a thread is blocked: either none of the steps wakes it and it still waits, or the first one that does, wake or timeout, decides its result, and it still sees that result when it next runs. |
| Scheduling.ReadyRuns | kernel/thread.c:425-485 | A ready thread at position k of its queue, with nothing higher runnable, runs within 5 * (k + 1) ticks, however many preemptions come between. |
| Switching.YieldTakes | kernel/thread.c:388-408 | thread_yield: the caller stands behind its queue with no quantum when the next thread is chosen. |
| Switching.PreemptTakes | kernel/thread.c:425-448 | thread_preempt: ahead of its queue with quantum left, behind it without, the quantum kept. |
| Switching.TickIs | kernel/thread.c:475-485 | One tick off the current thread's quantum and a reschedule asked for exactly when none is left; neither for the idle thread. |
| Switching.BlockTakes | kernel/thread.c:690-735 | Blocking: last in the wait queue, with a timer exactly when timed, told NO_ERROR by default; another thread takes the processor. |
| Switching.SleepTakes | kernel/thread.c:513-530 | Sleeping: a sleeper more, and another thread takes the processor. |
| Switching.WakeOneTakes | kernel/thread.c:739-775 | The first waiter goes ahead of its run queue with its result; with rescheduling the caller went ahead of its own before, and the best of all runs. |
| Switching.WokenRuns | kernel/thread.c:739-775 | With rescheduling the thread woken runs at once unless the caller has the higher priority; the other of the two is next in its queue. |
| Switching.AheadBackwards | kernel/thread.c:791-835 | Threads put ahead of their queues one by one stand there in the reverse of their order. |
| Switching.WakeAllTakes | kernel/thread.c:791-835 | wait_queue_wake_all: all waiters ahead of their run queues, the last first, and the reschedule as for one. |
| Switching.ResumeTakes | kernel/thread.c:193-211 | thread_resume: the thread ahead of its queue, the caller behind its own with no quantum, and the best runs. |
| Switching.SleepOverIs | kernel/thread.c:488-507 | A sleep that ends puts the thread ahead of its queue and switches nothing. |
| Switching.TimeoutIs | kernel/thread.c:658-680 | A wait that times out does the same, with ERR_TIMED_OUT; of a thread no longer blocked it changes nothing. |
| Switching.ExitTakes | kernel/thread.c:243-265 | thread_exit: dead, the waiters of the dpc event ahead of their queues, and the best runs. |
| Switching.PriorityIs | kernel/thread.c:584-591 | A priority from 0 to 31 is taken as it is, any other becomes the nearest. |
| Switching.StepHanded | kernel/thread.c:283-377 | Whichever step hands the processor over: the thread that gets it has five ticks if it had none left and what it had otherwise, and nothing of higher priority is ready. |
| Switching.SliceLasts | kernel/thread.c:425-485 | A thread with nothing higher ready stays current for as many ticks as it has left, less the last, however many preemptions come between; its quantum counts the ticks and no queue changes. |
| Switching.FourTicks | kernel/thread.c:340-485 | So a thread switched to with a used-up quantum, by any step, stays current through its first four ticks. |
| Switching.SliceEnds | kernel/thread.c:425-485 | With the last tick of its slice it makes room for the next thread of its priority. |
| Switching.WakeOneBest | kernel/thread.c:739-775 | After a wake with rescheduling nothing of higher priority than the running thread is ready; without, the caller goes on. |
| KernelThreads.Kernel.constructor | kernel/thread.c:536-557 | The state at boot. |
| KernelThreads.Kernel.ThreadResched | kernel/thread.c:283-377 | The head of the highest queue in use gets the processor; if it was not current and has used up its quantum it gets five ticks, otherwise its quantum stays; no other record, queue or timer changes. |
| KernelThreads.Kernel.ThreadYield | kernel/thread.c:388-408 | The current thread goes to the tail of its queue with no quantum left. |
| KernelThreads.Kernel.ThreadPreempt | kernel/thread.c:425-448 | To the head with quantum left, to the tail without. |
| KernelThreads.Kernel.ThreadTimerTick | kernel/thread.c:475-485 | One off the quantum, and a reschedule asked for exactly when it is used up; nothing for the idle thread. |
| KernelThreads.Kernel.WaitQueueBlock | kernel/thread.c:690-723 | A timeout of zero returns at once and changes nothing; otherwise the current thread is the last waiter and another one runs. |
| KernelThreads.Kernel.WaitQueueWakeOne | kernel/thread.c:739-774 | The number woken, the first waiter's result, and who runs next. |
| KernelThreads.Kernel.WaitQueueWakeAll | kernel/thread.c:791-832 | The number woken, every waiter's result, and who runs next. |
| KernelThreads.Kernel.ThreadUnblock | kernel/thread.c:862-892 | With and without rescheduling the code makes the modelled step; the invariant is kept if and only if it does not reschedule out of a blocked thread's wake; balanced in the critical-section count if and only if the thread was blocked: the early return leaves it one too high. |
| KernelThreads.Kernel.TimeoutHandler | kernel/thread.c:658-670 | A wait timeout takes its thread out of the queue it is in, with ERR_TIMED_OUT, and asks for a reschedule exactly when the thread was still waiting. |
| KernelThreads.Kernel.SleepHandler | kernel/thread.c:488-501 | A sleeper becomes ready, first in its queue. |
| KernelThreads.Kernel.ThreadSleep | kernel/thread.c:513-529 | The current thread sleeps and another one runs. |
| KernelThreads.Kernel.ThreadResume | kernel/thread.c:193-210 | A suspended thread becomes ready ahead of the current one; a runnable one is refused. |
| KernelThreads.Kernel.ThreadExit | kernel/thread.c:243-265 | The current thread is dead and in no queue, the waiters of the dpc event are woken, another thread runs. |
| KernelThreads.Kernel.ThreadCreate | kernel/thread.c:140-181 | One more thread, suspended and in no queue. |
| KernelThreads.Kernel.ThreadSetPriority | kernel/thread.c:584-591 | The priority clamped to the range, with every thread still in its place. |
| KernelThreads.Kernel.ThreadBecomeIdle | kernel/thread.c:600-606 | The boot thread goes to the idle priority and becomes the idle thread. |
| Mutexes.MutualExclusion | kernel/mutex.c:88-207 | At most one thread owns the mutex, counting one that was handed it and has not run yet. |
| Mutexes.MoveInv | kernel/mutex.c:88-207 | Every step of acquire, timed acquire, release and timeout, and every step of other threads, keeps the count equal to owner plus waiters plus those timed out that have not backed out. |
| Mutexes.RunMutex | kernel/mutex.c:88-207 | Hence over all interleavings. |
| Mutexes.NewMutex | kernel/mutex.c:44-54 | A new mutex satisfies all of it. |
| Mutexes.WaitersOwnedIff | kernel/mutex.c:145-173 | "A waiter implies an owner" survives a step if and only if the step is not an acquire that finds no holder and a positive count that is all of threads which have timed out and not backed out. |
| Mutexes.StrandsOnlyLate | kernel/mutex.c:155-167 | Such an acquire finds that nobody owns the mutex, handed to it or not, and that somebody is late in backing out. |
| Mutexes.StrandedStays | kernel/mutex.c:155-207 | And it is never repaired: over every run from then on that waiter stays queued and nobody ever owns the mutex. |
| Stranding.WaitersOwnedFails | kernel/mutex.c:133-207 | The moves from a new mutex that lose it, for any two threads of one priority that is the highest in use: acquire, yield, timed acquire, timeout, release, acquire. |
| Stranding.PairFromBoot | kernel/main.c:172-178 | Such a pair is reached from boot as the code starts up: the boot thread creates and resumes two threads, becomes idle, and an interrupt takes the processor from it. In the whole run the idle thread makes no call. |
| Stranding.StrandedFromBoot | kernel/mutex.c:88-207 | So a stranded waiter is reached from boot, for any threads and any priority above idle, by calls of the two threads and interrupts alone. |
| Mutexes.UntimedRun | kernel/mutex.c:88-121 | In runs without timed acquires every waiter always has an owner to wait for. |
| Mutexes.Mutex.constructor | kernel/mutex.c:44-54 | mutex_init: nobody owns it, nobody waits. |
| Mutexes.Mutex.AcquireBegin | kernel/mutex.c:88-166 | Who gets the mutex at once, who waits, who is turned away for a zero timeout. |
| Mutexes.Mutex.AcquireEnd | kernel/mutex.c:102-177 | A thread back from its wait either owns the mutex alone or has timed out and taken back its count. |
| Mutexes.Mutex.ReleaseMutex | kernel/mutex.c:182-207 | The first waiter is handed the mutex, and then no thread of higher priority than the one that runs is ready; without waiters nothing but the mutex changes. |
| Events.DoneInv | kernel/event.c:110-220 | A signalled event never has waiters; for auto-unsignal events every signal is accounted for: one release, pending, absorbed, or withdrawn. |
| Events.RunEvent | kernel/event.c:110-220 | Over every run. |
| Events.SignalReleasesAll | kernel/event.c:164-193 | Without auto-unsignal every waiter is released with NO_ERROR. |
| Events.SignalReleasesFirst | kernel/event.c:164-193 | With it exactly the first waiter is, with and without rescheduling, the signal is used up, and every other blocked thread stays where it waits. |
| Events.Event.constructor | kernel/event.c:58-68 | event_init, with the flag it is given and no waiter. |
| Events.Event.WaitTimeout | kernel/event.c:110-137 | A signalled event lets the caller go on (unsignalled from then on exactly with auto-unsignal), otherwise it is refused with nothing changed or waits, last in the queue, with a timer exactly when the timeout is finite. |
| Events.Event.SignalEvent | kernel/event.c:164-193 | Signalled afterwards unless auto-unsignal has released a waiter; a signalled event changes nothing; with rescheduling, when somebody waited, no thread of higher priority than the one that runs is ready, without it the caller goes on. |
| Events.Event.UnsignalEvent | kernel/event.c:207-220 | The flag is down and nobody is disturbed. |
| Dpcs.DpcInv | kernel/dpc.c:50-86 | Calls left in the list mean that the event is signalled, and calls queued are calls made, in hand or listed, in order. |
| Dpcs.RunDpc | kernel/dpc.c:50-86 | Over every run each queued call is made once, in the order of queueing, or still to come; while any is left the dpc thread is not waiting. |
| Dpcs.DpcList.constructor | kernel/dpc.c:43-48 | An empty list; the dpc thread is not waiting yet. |
| Dpcs.DpcList.DpcQueue | kernel/dpc.c:50-64 | The call is last in the list and the event is signalled; when its thread waited, the best ready thread runs then, or the caller goes on if no reschedule was wanted. |
| Dpcs.DpcList.Take | kernel/dpc.c:66-86 | The next call, first in first out, or the event unsignalled when there is none. |
| Timers.GtIsOrder | include/sys/types.h:65-68 | Within a window of half the range the sign of the wrapped difference is the order of time. |
| Timers.InsertKeeps | kernel/timer.c:61-76 | The queue stays sorted, and a timer goes behind all that are due at the same time. |
| Timers.CancelKeeps | kernel/timer.c:158-199 | A cancelled timer is in no queue and the rest stays sorted. |
| Timers.FiredSparesDue | kernel/timer.c:202-268 | Whatever its callback sets and cancels, a firing leaves exactly the other timers due that were not cancelled, in order; a periodic timer is re-armed exactly when it was neither cancelled nor queued again. |
| Timers.ToFireAll | kernel/timer.c:202-268 | A timer due when the tick starts is fired if and only if no callback of a timer fired before it cancels it. |
| Timers.ToFireOnly | kernel/timer.c:202-268 | Only timers due are fired, none that was taken out before the tick, none twice. |
| Timers.NeverAfterCancel | kernel/timer.c:158-268 | No timer is fired after the callback of an earlier firing has cancelled it. |
| Timers.ToFireOrder | kernel/timer.c:202-268 | Timers are fired in the order in which they stood in the queue. |
| Timers.TimerQueue.InsertTimerInQueue | kernel/timer.c:61-76 | The walk puts the timer before the first that is later. |
| Timers.TimerQueue.TimerSet | kernel/timer.c:78-111 | The timer is due after the delay, in its place in the queue. |
| Timers.TimerQueue.TimerCancel | kernel/timer.c:158-199 | The timer is out of the queue, with neither period nor callback; what follows from that is in `Arming`. |
| Timers.TimerQueue.MakeCall | kernel/timer.c:127-199 | The three calls a callback can make; delays of zero count as one. |
| Timers.TimerQueue.PutBack | kernel/timer.c:235-244 | Re-arming after a callback. |
| Timers.TimerQueue.FireHead | kernel/timer.c:215-244 | One turn of the loop: the head fires, and of the timers due at least one fewer is left, so that the loop ends. |
| Timers.TimerQueue.TimerTick | kernel/timer.c:202-268 | Fires exactly those timers, none after a callback of the tick has cancelled it; afterwards every queued time is strictly after now, and the timers are as that many firings leave them. |
| Arming.ActPhase | kernel/timer.c:78-199 | A call changes its own timer as it should and no other: due its delay after the call, at least one millisecond; a period only if periodic; a cancelled timer out of the queue with neither period nor callback. |
| Arming.FiredPhase | kernel/timer.c:206-247 | What a firing makes of the timer that fires and of every other, from the calls on each alone. |
| Arming.LastCancelled | kernel/timer.c:158-247 | If the last call on a timer in a callback is timer_cancel, the timer is not queued after the firing, the firing timer included. |
| Arming.LeftAlone | kernel/timer.c:206-247 | A timer that fires and is not called upon is queued again exactly when it is periodic, one period from now. |
| Arming.OffUntilSet | kernel/timer.c:78-247 | Over any run of calls and ticks a timer that is neither queued nor periodic stays out of the queue and never fires until it is set. |
| Arming.CancelledForGood | kernel/timer.c:158-247 | So after timer_cancel, whatever the timer was, it does not fire until it is set again. |
| BlockCache.VictimIsOldest | lib/bcache/bcache.c:150-182 | The slot chosen is the least recently used one that nobody references. |
| BlockCache.TouchKeeps | lib/bcache/bcache.c:124-147 | A lookup changes no block a client sees. |
| BlockCache.FlushKeeps | lib/bcache/bcache.c:88-103 | Neither does writing a block back. |
| BlockCache.TakenLogical | lib/bcache/bcache.c:150-215 | Reassigning a slot loses nothing a client sees: the old block is on the device, the new one reads as it should. |
| BlockCache.AssignedKeeps | lib/bcache/bcache.c:150-215 | No number is ever cached twice, no referenced slot is reassigned, and only the block asked for reads differently. |
| BlockCache.Bcache.constructor | lib/bcache/bcache.c:61-86 | An empty cache reads as the device. |
| BlockCache.Bcache.FindBlock | lib/bcache/bcache.c:124-147 | Found exactly when cached, and then most recently used. |
| BlockCache.Bcache.AllocBlock | lib/bcache/bcache.c:150-182 | A free slot, or the victim written back first when dirty, or none when all are referenced. |
| BlockCache.Bcache.AssignBlock | lib/bcache/bcache.c:184-215 | Fails exactly when every slot is referenced, and then changes nothing. |
| BlockCache.Bcache.FindOrFillBlock | lib/bcache/bcache.c:184-215 | The slot returned caches that number with its logical contents; no client sees a change. |
| BlockCache.Bcache.ReadBlock | lib/bcache/bcache.c:217-231 | Reads what the plain block array would give. |
| BlockCache.Bcache.GetBlock | lib/bcache/bcache.c:233-252 | One more reference on that block's slot, all other referenced slots as they were. |
| BlockCache.Bcache.WriteThrough | lib/bcache/bcache.c:233-252 | What a holder of a reference writes through the pointer is what clients then read, for that block alone. |
| BlockCache.Bcache.MarkBlockDirty | lib/bcache/bcache.c:271-287 | Fails exactly for a block not cached; otherwise its slot, and no other, is dirty and most recently used. |
| BlockCache.Bcache.PutBlock | lib/bcache/bcache.c:254-269 | One reference fewer on the slot of that block alone, and nothing a client sees changes, unless it is the last reference to a block written and not marked dirty. |
| BlockCache.Bcache.UnmarkedLost | lib/bcache/bcache.c:254-269 | After such a put, once the slot is taken for another block, this block reads as the device has it: clients see a change exactly when slot and device differ, and in no other block. |
| BlockCache.Bcache.ZeroBlock | lib/bcache/bcache.c:289-311 | The block is cached and dirty and reads as zeros from then on, cached before or not; referenced blocks other than it are left alone. |
| BlockCache.Bcache.WriteBack | lib/bcache/bcache.c:228-345 | A client that gets a block, writes through the pointer, marks, puts and flushes: its bytes are on the device, and if no other change is unmarked every other block of the device is what clients saw. |
| BlockCache.Bcache.Flush | lib/bcache/bcache.c:313-330 | What is marked dirty is written back and nothing is dirty afterwards; no client sees a change; the device then holds exactly what clients read if and only if every slot that differed from it was marked. |
| BlockIo.Device.DefaultRead | lib/bio/bio.c:41-108 | Partial first block, whole blocks and partial last block together read exactly the byte range. |
| BlockIo.Device.DefaultWrite | lib/bio/bio.c:110-187 | They write exactly the byte range and leave the rest of the touched blocks alone. |
| BlockIo.Device.MemRead | lib/bio/mem.c:38-47 | The memory device reads the same bytes. |
| BlockIo.Device.MemWrite | lib/bio/mem.c:60-69 | The memory device writes the same bytes. |
| BlockIo.ClampIs | lib/bio/bio.c:276-370 | A transfer covers as much as was asked for or all there is from its offset on, and nothing outside the device. |
| BlockIo.Device.BioRead | lib/bio/bio.c:276-293 | For every offset and length: the bytes of the clamped range through either kind of device, and the number of them. |
| BlockIo.Device.BioWrite | lib/bio/bio.c:312-329 | For every offset and length: exactly the clamped range is replaced. |
| BlockIo.Device.BioErase | lib/bio/bio.c:348-365 | For every offset and length: exactly the clamped range is zero afterwards. |
| BlockIo.Device.EraseRange | lib/bio/bio.c:189-214 | Zeros written piecewise from one small buffer cover exactly the range. |
| BlockIo.Publish | lib/bio/subdev.c:83-111 | When the sum does not wrap, a window is published exactly when it fits into its parent. |
| BlockIo.PublishNested | lib/bio/subdev.c:91-93 | Of the windows the 32-bit check lets through, exactly those that end within the first 2^32 blocks fit into the parent. |
| BlockIo.ToParentRight | lib/bio/subdev.c:40-45 | The 32-bit product of block number and block size is the window's start if and only if that lies within the first 4 GB. |
| BlockIo.WindowInside | lib/bio/subdev.c:83-111 | Every window of a stack lies inside the root device. |
| BlockIo.StackRead | lib/bio/subdev.c:40-45 | Reading through any stack of subdevices reads that place of the window on the root device. |
| BlockIo.StackWrite | lib/bio/subdev.c:54-59 | Writing through any stack changes exactly those bytes of the root device. |
| BlockIo.StackErase | lib/bio/subdev.c:68-73 | Erasing through any stack zeroes exactly those bytes. |
| BlockIo.InsideWindow | lib/bio/subdev.c:40-73 | Whatever is asked for, the bytes touched lie inside the window. |
| BlockIo.CheckBlocksRight | lib/bio/bio.c:295-310 | The block range check clamps as it should if and only if block number plus count does not wrap in 32 bits. |
| BlockIo.StackReadBlock | lib/bio/subdev.c:47-52 | Block reads through any stack of subdevices give those blocks of the window, clamped to it, and the number of bytes. |
| BlockIo.StackWriteBlock | lib/bio/subdev.c:61-66 | Block writes through any stack replace exactly those blocks of the root device. |
| CacheDevice.PatchBlock | lib/bcache/bcache.c:88-103 | Overwriting the bytes of one cache block on the device replaces that block of the array the cache is stated over, and no other. |
| CacheDevice.ReadDevice | lib/bcache/bcache.c:184-215 | The byte read that fills a slot yields that block of the array, whatever the device's own block size. |
| CacheDevice.WriteDevice | lib/bcache/bcache.c:88-103 | The byte write that flushes a slot replaces that block of the array. |
| PathNormal.NeverLonger | lib/fs/fs.c:385-517 | The normal form is never longer than the path. |
| PathNormal.Idempotent | lib/fs/fs.c:385-517 | Normalizing a normal path changes nothing. |
| PathNormal.StaysAbsolute | lib/fs/fs.c:385-517 | An absolute path stays absolute if and only if its ".." never take back more fields than there are and at least one is left; when none is left nothing is written; a relative path never becomes absolute. |
| PathNormal.RootVanishes | lib/fs/fs.c:385-517 | Two such paths: "/" becomes empty, and "/../a" becomes relative. |
| PathNormal.TakeBack | lib/fs/fs.c:472-490 | ".." takes back exactly the last field written, or the leading slash. |
| PathNormal.Advance | lib/fs/fs.c:402-507 | Each turn of the nine-state loop makes progress, writes behind its reading position, and leaves the rest to come to the same fields. |
| PathNormal.NormalizePath | lib/fs/fs.c:385-517 | The in-place rewriter ends, writes the field-stack normal form with its terminator, and never touches a byte past the old one. |
| FdtFinish.NeededGrows | lib/libfdt/fdt_sw.c:73-86 | A blob never needs less room when more calls come, so that no call fails early. |
| FdtClients.NewNodePlace | lib/libfdt/fdt_rw.c:334-400 | The offset fdt_add_subnode returns passes the node check of fdt_del_node and is the new, empty node. |

## Left out

Device tree library:

- FdtPack.OpenInto: only a destination apart from the blob; in place, when the blocks have to be reordered, the code reads the header after it has been overwritten. Blobs older than version 17, whose structure size it has to compute, are left out too.
- FdtPath.PathOffset: paths from the root only; a path that starts with an alias needs the /aliases node.
- FdtPath.GetPath: for offsets at or behind the end of the root node the model ends where the code first reads ahead of its output buffer; what it does with the bytes there is not modelled.
- FdtRead.NextNode: the variant without a depth pointer, and offsets inside a token, which no reader returns.
- Malformed blobs: apart from `fdt_next_tag` and the offset and header checks, which are modelled for any bytes, the functions are stated for well-formed version 17 blobs with balanced tokens, as the read-write functions demand them. `FdtSplice.RwCheckHeader` is modelled for any header too; the edits after it are stated for version 17.
- FdtRw.SetProp: values up to 0x7fffff00 bytes, so that rounding up does not overflow an int; the same bound is on node names and appended values.
- FdtSw.Property: a name longer than what the strings leave of the buffer, for which the unsigned room check wraps and the copy would leave the buffer; `FdtSw.RoomCheck` states that the condition is exact. FdtFinish.WriteBlob has the same condition for each name, and starts from buffers of at least 48 bytes.
- `fdt_finish` when the root is not closed, and calls in the wrong order: the writer does not notice them.
- Lookups by phandle, by property value and by compatible string: loops over the readers modelled here.

Scheduler:

- KernelThreads.Kernel.ThreadResume: threads that are blocked or sleeping, with which the code spoils its queues; `Scheduling.ResumeInv` says that exactly those have to be excluded.
- Critical-section nesting across a switch of threads: the count is modelled within one call, where `ThreadUnblock` shows the one path that leaves it unbalanced.
- The preempt timer of platforms with a dynamic timer; the timers of sleeping and timed-out threads appear as the sets of threads that have one pending.
- Memory, stack and thread-local storage in `thread_create`, and the freeing of a dead thread by its cleanup call.
- `mutex_destroy`, `event_destroy` and `wait_queue_destroy` while threads wait.
- Mutexes.Mutex.AcquireBegin: a thread that already holds the mutex panics in the code; the model asks that it does not.
- Mutexes.MoveInv: a thread that acquires has no wait timer of its own left pending, as `wait_queue_block` cancels it before it returns.
- Scheduling.ReadyRuns: runs of ticks and preemptions only, as other calls may insert threads ahead.

Heap:

- Heap.Zone.Alloc: sizes whose rounding up would overflow, the debug fills, `heap_realloc`, several zones at once, and the case that the list head itself lies where a chunk would touch it: its address is assumed outside the heap. The header written in front of a live block is the map `headers`, not bytes of the heap.

Timers:

- Timers.TimerQueue.TimerSet: setting a timer that is queued panics in the code; a script that does so has no effect in `MakeCall`. All live times must lie within half the range of the clock. Reprogramming the hardware timer is left out.

Block layer:

- BlockCache.Bcache.FindOrFillBlock: transfers succeed, numbers are blocks of the device, and a slot can be had; the failing read links a slot into two lists. The statistics are left out.
- BlockCache.Bcache.PutBlock: after the last reference to a block with an unmarked change has gone the invariant no longer holds; `UnmarkedLost` says what clients see once the slot has been reassigned, and further calls before that are not followed.
- BlockIo.StackRead: windows that start at 4 GB or later, where the product of `ToParentRight` wraps; the same holds of `StackWrite` and `StackErase`, and block transfers whose block number plus count wraps are left out of `StackReadBlock` and `StackWriteBlock`.
- BlockIo.Device.BioRead: transfers of the device itself succeed; the same holds of writing and erasing. Reference counts, registration by name and closing of devices are left out.

Path normalizer:

- PathNormal.NormalizePath: nothing of the mount table or of the file systems.
