# AcadiaOS in Dafny

A Dafny model of the parts of AcadiaOS that hold real invariants: the virtual memory stack of the
Zion kernel, its scheduler, capability tables and message queues, the userspace buddy allocator,
the yunq wire format in both of its implementations, and the containers underneath them.

Each file models one component of the system.

| file | component |
|---|---|
| `PageTable.dfy` | four-level page tables as a partial map from virtual pages to frames |
| `BinaryTree.dfy`, `TreeLayout.dfy` | the parent-pointer search tree, and which of its keys deletions lose |
| `MemoryMapping.dfy` | the interval map of an address space, kept in that tree |
| `AddressSpace.dfy` | address spaces: page tables filled lazily from the interval map and memory objects |
| `PhysicalMemory.dfy` | physical pages, from the boot loader's memory map on |
| `BuddyAllocator.dfy` | the userspace allocator behind `operator new` |
| `YunqFormat.dfy`, `YunqWrites.dfy` | what it is for a buffer to hold a message, independent of either serializer |
| `YunqSerializer.dfy`, `YunqView.dfy`, `YunqRoundTrip.dfy` | the C++ serializer and parser |
| `YunqRust.dfy`, `YunqRepeated.dfy`, `YunqAgreement.dfy` | the code the Rust generator emits, and its agreement with C++ |
| `Scheduler.dfy`, `IntrusiveList.dfy` | the scheduler as a state machine, and its pointer-level lists |
| `Capabilities.dfy`, `SystemCalls.dfy` | capability tables, and the system calls on them |
| `MessageQueue.dfy` | message queues and reply ports |
| `HashMap.dfy`, `LinkedList.dfy` | the chained hash map and singly linked list |
| `BlockReader.dfy` | coalesced reads of ext2 blocks |
| `Bits.dfy`, `Common.dfy` | bit operations on naturals, shared definitions |

Code that changes state in place is a class or a method here; its contract ties the new state to a
specification, and the lemmas are about that specification. Classes over linked memory keep a map
from addresses to cells, with a ghost shape beside it, or use Dafny's own heap (`IntrusiveList`,
`LinkedList`). Runs are sequences of operations: an invariant is shown to survive every operation,
and then every run.

## Main results

- Every run of creating, mapping, touching and unmapping memory is followed state by state. From a
  coherent state, where each user translation in the page tables is the frame that the interval map
  and its memory object give for that address, a call leads to a coherent one exactly unless it is a
  fault that is resolved with a frame the map does not give for the first address of the page, or a
  freeing that strands a translation, outside the swept pages or of a dying process, whose mapping
  goes. Both conditions are on the state before the call, and a run stays coherent throughout exactly
  when no call of it meets them. Mapping on page boundaries, faulting, and freeing from address 0 on
  never do, which a caller can tell from the calls alone. Each failing case has a run from a new
  address space that ends incoherent.
- Which mappings freeing a range removes, and which others it loses, is read off the shape of the
  search tree before: below the range those under a node of the range with a right child, above it
  those under a node that still has one below the range under it when its turn comes, but not under
  the next node. Nothing else is lost if and only if nothing below the range is.
- Mapping, unmapping and making pages resident change exactly the pages named, through shared
  intermediate tables. What a page allows is told from all entries on the way to it: a new page gets
  what the entries there were and the new ones allow, and through every run from tables all of whose
  entries are writable and open to user mode exactly in the lower half, as in empty ones, every page is
  writable, and open to user mode exactly in the lower half.
- Every payload the allocator hands out lies in mapped memory and is disjoint from every other one and
  from every block header; blocks always tile the arenas; and the address a merge computes by
  exclusive or is always that of a real block header no larger than the block. A second free of a
  payload not handed out since is caught if and only if its block is on the free list and not alone
  there; otherwise no arrangement of blocks accounts for the memory any more.
- For every schema, value, offset and earlier buffer content, parsing gives back what C++
  serialized. With a capability buffer this holds for a schema exactly when its nested messages
  carry no capabilities. The Rust code succeeds exactly when the message fits, its parser inverts
  it with nested capabilities included (for schemas without repeated fields), and where capabilities
  stay in the outer message each language reads the other. Messages of repeated numbers come back
  from the Rust code exactly when the lists, placed from the start of the buffer, keep clear of the
  header and the slots.
- A run of kernel steps reaches a panic of the scheduler if and only if a step of it wakes a thread
  that was killed while it slept or waited. In every other run each thread is in at most one place, a
  runnable thread with k others ahead that is not killed runs within k + 1 timer ticks, and a sleeper
  wakes at exactly the tick its count ends. For each step it is told who runs then, who waits where and
  in which order, and in which state every thread is.
- No run of system calls puts a capability object in two places, changes its permissions, lets a copy
  have more, gives an id another meaning, or moves a capability that may not be transmitted. For each
  call its error is told and, if there is none, everything it changes: which queue a message joins, what
  it carries, and which ids of which tables name what.
- In every run the messages received are the first of those sent, in order, and the next receiver with
  room gets the next one. A reply port hands out the first message sent to it, to the first reader that
  finds it there with room for it, and to no other.

## Where the code differs from what one might expect

These are modelled as the code has them, each with the condition under which it happens.

- `BinaryTree::Delete` of a node with two children loses other entries too, the left child's among
  them: all of its subtree but that of the next key. The tree stays well formed; the contents are right
  exactly when the node has at most one child.
- `FreeMemoryRange` deletes through that tree, so it can lose mappings below the range it frees.
- The system call that unmaps a range frees it as for a dying process and leaves its translations.
- A second free goes unnoticed when the block is the only free one, because a single free block
  carries no links, and when the block was merged into its lower buddy, because the header it leaves
  behind carries none either. A merge can miss a buddy that is alone on the list.
- Killing a process with a sleeping or waiting thread panics the kernel when that thread is woken.
- C++ restarts capability numbers in nested messages and parses nested messages without the
  capability buffer.
- Rust places repeated numbers from the start of the buffer, not of the message, so that in a request
  a message of such fields carries one number in all, and that only if it has one field.
- A disk read takes only 16 bits of its sector count, so coalesced runs of 65536 sectors or more
  leave part of the result unread, even by a device that moves as many sectors as it is told.
- A woken receiver whose buffer is too small leaves the message and wakes nobody else. A wakeup is
  lost exactly then, if others wait and as many messages are pending as receivers are on their way.
- `AllocatePage` and `AllocateContinuous` run off the end of the block list when every block on it is empty.
- `HashMap::at` on a missing key stores a default without counting it, and `HashMap::Delete` divides by
  zero before the first insert, so releasing all capabilities of a table that never held one does too.
- An unmapping sweep that ends in the last page of memory can go around for ever.

## Model

| member | source | states |
|---|---|---|
| `PageTable.EntryOffsetIsIndex` | zion/memory/paging_util.cpp:28-60 | The mask, shift and mask of the index helper give eight times the nine-bit field of that level, for every address. |
| `PageTable.MaskedWord` | zion/memory/paging_util.cpp:26 | Clearing the low twelve bits of an entry gives the address of the frame it names. |
| `PageTable.EntryWord` | zion/memory/paging_util.cpp:146-164 | An entry made by joining a frame address with access bits names that frame. |
| `PageTable.ClearLow12` | zion/memory/paging_util.cpp:26 | The mask that the code clears the low twelve bits with gives the page address, which is the address of the frame an entry names. |
| `PageTable.EntriesOf` | zion/memory/paging_util.cpp:35-60 | The entries the index helpers select are the four indices of the page. |
| `PageTable.PageIsBits12To47` | zion/memory/paging_util.cpp:28-60 | Two addresses take the same path through the tables exactly when bits 12 to 47 agree. |
| `PageTable.TableDeterminesPath` | zion/memory/paging_util.cpp:35-60 | In tables forming a tree, pages that share a table share every index above it. |
| `PageTable.LeafWriteIsPageWrite` | zion/memory/paging_util.cpp:137-194 | Writing one last-level entry changes the translation of one page and of no other. |
| `PageTable.InstallKeepsTables` | zion/memory/paging_util.cpp:146-160 | Installing a fresh zeroed table keeps the tables a tree. |
| `PageTable.InstallKeepsWalk` | zion/memory/paging_util.cpp:146-160 | Installing a fresh zeroed table changes no translation. |
| `PageTable.PageTables.NextTable` | zion/memory/paging_util.cpp:146-160 | Descending one level allocates a table only if it is missing, keeps every translation, and fails only when no page is free. |
| `PageTable.PageTables.LeafTable` | zion/memory/paging_util.cpp:146-160 | The last-level table is reached exactly when the free pages cover the missing tables, and those are the pages used. |
| `PageTable.HigherTest` | zion/memory/paging_util.cpp:139-145 | The test with the mask of the higher half is true exactly of the addresses from 0xFFFF800000000000 on. |
| `PageTable.AccessFor` | zion/memory/paging_util.cpp:139-145 | The bits of an entry: present, writable, and open to user mode exactly below the higher half. |
| `PageTable.RightsOfNew` | zion/memory/paging_util.cpp:146-168 | A page newly mapped allows what the entries that were on its way and the new ones allow. |
| `PageTable.EmptyGuarded` | zion/memory/paging_util.cpp:139-168 | Tables with nothing in them are guarded. |
| `PageTable.GuardedRights` | zion/memory/paging_util.cpp:139-168 | In guarded tables, where every entry on the way to a page is writable, and open to user mode exactly in the lower half, a page mapped is so, too. |
| `PageTable.PageTables.MapPage` | zion/memory/paging_util.cpp:137-168 | Succeeds exactly when the page has no translation and enough pages are free; then that page and no other changes. The page allows what the entries there were do, and user mode only in the lower half; pages that were mapped allow what they did. Guarded tables stay so, and in them the page is writable, and open to user mode exactly in the lower half. |
| `PageTable.PageTables.UnmapPage` | zion/memory/paging_util.cpp:170-194 | Removes the translation of one page, and keeps all others and what they allow. |
| `PageTable.PageTables.PagePhysIfResident` | zion/memory/paging_util.cpp:62-80 | Returns the address of the frame behind the page, or zero if there is none. |
| `PageTable.PageTables.AllocatePageIfNecessary` | zion/memory/paging_util.cpp:196-206 | Makes one page resident if it is not, and leaves every earlier translation. |
| `PageTable.PageTables.EnsureResident` | zion/memory/paging_util.cpp:208-215 | On success every page of the range is resident; no page that had a translation or lies outside the range changes; it fails only with fewer than four free pages left or a page at frame zero. |
| `PageTable.AddressInRangePages` | zion/memory/paging_util.cpp:208-215 | The pages visited contain every address of the range, whatever its alignment. |
| `PageTable.RangePageHasAddress` | zion/memory/paging_util.cpp:208-215 | Every page visited contains an address of the range. |
| `MemoryMapping.ConflictIsOverlap` | zion/lib/memory_mapping_tree.cpp:15-39 | For proper ranges, the conflict the insertion tests for is sharing an address. |
| `MemoryMapping.NearestStraddles` | zion/lib/memory_mapping_tree.cpp:46-58 | Some mapping straddles a boundary exactly when the one that begins last below it does. |
| `MemoryMapping.NearestReaches` | zion/lib/memory_mapping_tree.cpp:84-94 | Of the mappings beginning below an address only the last one can reach past it. |
| `MemoryMapping.MemoryMappingTree.AddInMemoryObject` | zion/lib/memory_mapping_tree.cpp:15-39 | Succeeds exactly when the new range conflicts with none, then adds just it; otherwise nothing changes. Mappings stay disjoint. |
| `MemoryMapping.MemoryMappingTree.FreeMemoryRange` | zion/lib/memory_mapping_tree.cpp:41-71 | Fails unchanged exactly when the range is empty or a mapping straddles an end. Otherwise the mappings left are exactly those outside the range that are not lost, as told from the tree before; they are all of those outside if and only if no node of the range has a right child and a key below the range under it. |
| `MemoryMapping.MemoryMappingTree.DeleteFirst` | zion/lib/memory_mapping_tree.cpp:60-69 | Deleting the first mapping from the base on changes nothing about what will be left in the end. |
| `MemoryMapping.StepKeepsRemaining` | zion/lib/memory_mapping_tree.cpp:60-69 | What is left in the end is the same told from the tree before the first deletion and after it. |
| `MemoryMapping.RemainingExactly` | zion/lib/memory_mapping_tree.cpp:60-69 | All mappings outside the range are left exactly when none below it is under a node of the range with a right child. |
| `MemoryMapping.NearestContains` | zion/lib/memory_mapping_tree.cpp:83-94 | Only the nearest mapping from an address down can contain it, also for the last address, where the sum wraps to zero. |
| `MemoryMapping.MemoryMappingTree.GetMemoryMappingForAddr` | zion/lib/memory_mapping_tree.cpp:83-94 | Finds the mapping that contains an address, and none exactly when none does. |
| `MemoryMapping.ContainsOnce` | zion/lib/memory_mapping_tree.cpp:83-94 | At most one mapping contains an address. |
| `AddressSpace.AddressSpace.constructor` | zion/object/address_space.cpp:16-19 | A new address space has no mapping, is coherent, and places the first range at 0x2000000000. |
| `AddressSpace.AddressSpace.CreateVariableObject` | zion/object/memory_object.cpp:40-53 | A new object covers the size asked for, rounded up to pages unless that wraps, with no page behind it yet. |
| `AddressSpace.AddressSpace.PageNumberToPhysAddr` | zion/object/memory_object.cpp:64-72 | Gives the frame of a page; a page of a variable object without one gets the next free frame, and no other page or object changes. Panics exactly when one is needed and none is free. |
| `AddressSpace.AddressSpace.GetNextMemMapAddr` | zion/object/address_space.cpp:38-55 | For any alignment, the address is the first page boundary from the last end on with no bit in common with the alignment less one, around the end of memory if need be, and the next search begins at the end of the range, rounded up to pages. It fails exactly for size zero and for a range that does not end below the limit of the region. Ranges of ordinary size come one after another. |
| `AddressSpace.AlignUp` | zion/object/address_space.cpp:44-48 | Stepping page by page, with 64-bit addresses, ends for every alignment, at the first page boundary with no bit in common with the alignment less one. |
| `AddressSpace.AddressSpace.MapInMemoryObject` | zion/object/address_space.cpp:57-60 | Succeeds exactly when the range conflicts with no mapping and adds just it, at any address; a coherent space stays so. |
| `AddressSpace.AddressSpace.MapInMemoryObjectAnywhere` | zion/object/address_space.cpp:62-67 | Fails exactly when there is no space for the object; otherwise the address is the first boundary that meets the alignment, and the object is mapped there exactly when it fits between the mappings. Nothing else changes but where the next search begins; a coherent space stays so. |
| `AddressSpace.AddressSpace.HandlePageFault` | zion/object/address_space.cpp:93-111 | Unresolved and unchanged exactly for the first page or an address in no mapping; resolved exactly if the page has no translation and there are frames for the tables it lacks and for the page. Then the page gets the frame of its mapping's object, and no other page changes. A coherent space stays so exactly unless, on the state before, the fault at a user address will be resolved with a frame other than the map gives for the first address of the page. |
| `AddressSpace.FaultInStep` | zion/object/address_space.cpp:102-110 | A fault in step with its mapping never breaks coherence. |
| `AddressSpace.FaultCoherence` | zion/object/address_space.cpp:93-111 | A fault keeps a coherent state coherent exactly unless it gives a user page a frame other than the map does. |
| `AddressSpace.AddressSpace.UnmapRange` | zion/object/address_space.cpp:78-84 | The loop and the extra unmap clear exactly the pages swept, for all ends with which the loop ends. |
| `AddressSpace.SweepEndsExactly` | zion/object/address_space.cpp:80-82 | With 64-bit addresses the loop ends exactly when the limit is not in the last page or its offset in a page is at most that of the base. |
| `AddressSpace.SweepMeets` | zion/object/address_space.cpp:78-84 | Every page that meets the range is swept, for any alignment of its ends. |
| `AddressSpace.FreeSplitsBacked` | zion/object/address_space.cpp:69-87 | After freeing a range, a page that was backed is still backed exactly when it lies outside the range. |
| `AddressSpace.FreeBreaksExactly` | zion/object/address_space.cpp:69-87 | Freeing a range keeps a coherent state coherent exactly unless a translation that is not swept was of a page in a mapping that goes, told from the state before. |
| `AddressSpace.FreeUnsplit` | zion/object/address_space.cpp:69-87 | When the tree loses nothing else, coherence is lost exactly if the process is dying and a page of the range is resident. |
| `AddressSpace.AddressSpace.FreeAddressRange` | zion/object/address_space.cpp:69-87 | Changes nothing, with the exact error codes, or leaves exactly the mappings told from the tree before and, unless the process is dying, clears exactly the swept pages. A coherent space stays so exactly unless, on the state before, a translation is stranded; if the tree loses nothing else, exactly unless the process is dying and a page of the range was resident. |
| `AddressSpace.AddressSpace.Run` | zion/object/address_space.cpp:57-111 | For every sequence of creating, mapping, faulting and unmapping there is the sequence of states from the first to the last; each step has exactly the effect of its call on mappings, objects and translations, and leads from a coherent state to a coherent one exactly unless the call breaks it in the state before. |
| `AddressSpace.CoherentThroughout` | zion/object/address_space.cpp:57-111 | A run from a coherent state is coherent throughout exactly when no call breaks coherence in the state it is made in. |
| `AddressSpace.GuardedThroughout` | zion/object/address_space.cpp:57-111 | Through every run from guarded tables, every page mapped is writable, and open to user mode exactly in the lower half. |
| `AddressSpace.CarefulRun` | zion/object/address_space.cpp:57-111 | Runs that map on page boundaries and free, as for a living process, only from address 0 on stay coherent, whatever else they do. |
| `AddressSpace.FreeFromZero` | zion/object/address_space.cpp:69-87 | Freeing from address 0 on never breaks coherence, because no mapping is below to be lost. |
| `AddressSpace.RunCarefully` | zion/object/address_space.cpp:16-19 | From a new address space such runs end coherent. |
| `AddressSpace.FaultIsBacked` | zion/object/address_space.cpp:102-110 | The frame found for a faulting address in step with its page backs the whole page. |
| `AddressSpace.AlignedInStep` | zion/object/address_space.cpp:102-110 | In a mapping that begins on a page boundary every address is in step with its page. |
| `AddressSpace.UnmapLeavesTranslation` | zion/syscall/address_space.cpp:26-34 | Creating, mapping, touching and then unmapping a page by the system call leaves its translation, in a space that was new. |
| `AddressSpace.FreeLosesMapping` | zion/object/address_space.cpp:69-87 | With three neighbouring pages mapped, the middle one first, and the lowest one touched, freeing the middle one loses the lowest mapping and leaves its translation. |
| `AddressSpace.UnalignedFault` | zion/object/address_space.cpp:102-110 | A fault in a mapping that begins in the middle of a page gives its page the frame of the next page of the object. |
| `PhysicalMemory.InitBootstrap` | zion/memory/physical_memory.cpp:163-180 | Bootstrap memory is enabled exactly when a usable entry is large enough, and then lies in a usable entry. |
| `PhysicalMemory.BootstrapAllocate` | zion/memory/physical_memory.cpp:216-235 | Hands out a page never handed out before, until the bootstrap block is used up. |
| `PhysicalMemory.PhysicalMemoryManager.constructor` | zion/memory/physical_memory.cpp:38-56 | Takes over every usable page except those bootstrap has handed out. |
| `PhysicalMemory.PhysicalMemoryManager.AllocatePage` | zion/memory/physical_memory.cpp:58-83 | Succeeds exactly while a page is free: the first single page, or else the first page of the first block that is not empty, which nobody holds. The lists are left exactly as the code does. Free and held pages partition the usable ones. |
| `PhysicalMemory.PhysicalMemoryManager.AllocateContinuous` | zion/memory/physical_memory.cpp:84-113 | Succeeds exactly when a block is long enough and not all blocks are empty; the first long enough gives pages nobody holds from its front, and empty blocks at the front of the list are dropped. Runs off the list exactly when there are blocks and all are empty. |
| `PhysicalMemory.PhysicalMemoryManager.FreePage` | zion/memory/physical_memory.cpp:115-118 | Takes back a held page as the first single one. |
| `PhysicalMemory.PhysicalMemoryManager.FreePages` | zion/memory/physical_memory.cpp:120-123 | Takes back held consecutive pages as the first block. |
| `PhysicalMemory.TakeFromBlock` | zion/memory/physical_memory.cpp:71-77 | Taking pages from the front of a block moves exactly those pages out of the free blocks. |
| `PhysicalMemory.FreePlaceExists` | zion/memory/physical_memory.cpp:58-83 | A page is free exactly when there is a single page or a block that is not empty. |
| `BinaryTree.BinaryTree.constructor` | lib/glacier/container/binary_tree.h:17 | An empty tree stands for the empty map. |
| `BinaryTree.BinaryTree.FindOrInsertionParent` | lib/glacier/container/binary_tree.h:198-221 | Ends at the node with the key, or at the node where it would hang, with all smaller keys on one side and all larger ones on the other. |
| `BinaryTree.BinaryTree.Find` | lib/glacier/container/binary_tree.h:186-196 | Returns exactly the entry of the key. |
| `BinaryTree.BinaryTree.Insert` | lib/glacier/container/binary_tree.h:56-73 | Sets the entry of the key and keeps order and parent links. |
| `BinaryTree.GraftKeepsTree` | lib/glacier/container/binary_tree.h:64-69 | Hanging a leaf at its insertion point keeps a search tree. |
| `BinaryTree.BinaryTree.Delete` | lib/glacier/container/binary_tree.h:75-114 | Leaves a well-formed tree with exactly the other entries, less, if the node has two children, those of its subtree that are not under the next key; removes only the key exactly when its node has at most one child. The places of what stays close up. |
| `BinaryTree.PruneKeepsTree` | lib/glacier/container/binary_tree.h:82-113 | Letting a descendant take the place of a node leaves a search tree of what remains reachable. |
| `BinaryTree.PruneOne` | lib/glacier/container/binary_tree.h:83-89 | With at most one child, exactly the deleted entry goes. |
| `BinaryTree.PruneTwo` | lib/glacier/container/binary_tree.h:90-100 | With two children, the left child's entry, which is smaller, is lost as well. |
| `BinaryTree.TreeIsLaid` | lib/glacier/container/binary_tree.h:116-184 | The keys of a tree take consecutive places in order, and subtrees are nested or apart. |
| `BinaryTree.LayoutAfterDelete` | lib/glacier/container/binary_tree.h:82-113 | Replacing a node by its one child, or by the next node, leaves exactly the places and entries that the layout says. |
| `BinaryTree.RootIsOver` | lib/glacier/container/binary_tree.h:83-90 | The root has every smaller key under it and, if there is a larger key, a right child. |
| `TreeLayout.OneChildGoes` | lib/glacier/container/binary_tree.h:83-89 | With a key that has at most one child nothing else goes. |
| `TreeLayout.TwoChildrenGo` | lib/glacier/container/binary_tree.h:90-113 | With a key that has two, exactly its subtree goes, but for the subtree of the next key. |
| `TreeLayout.StepBelow` | zion/lib/memory_mapping_tree.cpp:60-69 | Deleting the first key of a range changes for no key below the range whether it is lost in the end. |
| `TreeLayout.StepAbove` | zion/lib/memory_mapping_tree.cpp:60-69 | Nor for any key above it. |
| `TreeLayout.NothingLost` | zion/lib/memory_mapping_tree.cpp:60-69 | No key outside the range is lost exactly when none below it is. |
| `BinaryTree.TopOfCut` | lib/glacier/container/binary_tree.h:126-147 | The node just below a cut between smaller and larger keys is the predecessor. |
| `BinaryTree.BinaryTree.Predecessor` | lib/glacier/container/binary_tree.h:116-149 | Returns the entry of the greatest smaller key, for keys present or not. |
| `BinaryTree.BinaryTree.Successor` | lib/glacier/container/binary_tree.h:151-184 | Returns the entry of the least larger key, for keys present or not. |
| `BuddyAllocator.BuddyIsOtherHalf` | lib/mammoth/util/new.cpp:34-37 | Exclusive or with its size moves an aligned block to the other half of its parent block. |
| `BuddyAllocator.BuddyIsBlock` | lib/mammoth/util/new.cpp:104-106 | In a tiling, the buddy address of a block smaller than an arena is the start of a block no larger than it. |
| `BuddyAllocator.NeededSize` | lib/mammoth/util/new.cpp:39-49 | The least power of two from 32 up that holds the payload and a header. |
| `BuddyAllocator.BuddyAllocator.constructor` | lib/mammoth/util/new.cpp:55-59 | Starts with one free arena. |
| `BuddyAllocator.BuddyAllocator.AddPage` | lib/mammoth/util/new.cpp:128-138 | Adds a fresh arena as one free block at the front of the list. |
| `BuddyAllocator.BuddyAllocator.Remove` | lib/mammoth/util/new.cpp:157-171 | Takes one block off the list and leaves the others in order. |
| `BuddyAllocator.BuddyAllocator.Split` | lib/mammoth/util/new.cpp:140-155 | Puts the two halves in place of a free block, next to each other in the list. |
| `BuddyAllocator.SplitKeepsTiling` | lib/mammoth/util/new.cpp:140-155 | Halving a block keeps every arena tiled by aligned blocks. |
| `BuddyAllocator.MergeKeepsTiling` | lib/mammoth/util/new.cpp:105-114 | Joining two buddies keeps every arena tiled by aligned blocks. |
| `BuddyAllocator.BuddyAllocator.BestFit` | lib/mammoth/util/new.cpp:69-80 | Finds a smallest free block that is large enough, or that there is none. |
| `BuddyAllocator.BuddyAllocator.Choose` | lib/mammoth/util/new.cpp:66-85 | The block used is a smallest fitting free one and no arena is added; if none fits, it is a fresh arena, the second one added if there was no free block at all and one arena is too small. |
| `BuddyAllocator.BuddyAllocator.Allocate` | lib/mammoth/util/new.cpp:61-96 | Fails exactly above four pages less a header. Otherwise, as long as a free block has room, no arena is added and the payload is in a smallest such block; if none has, exactly one arena is added, or two if nothing is free and one is too small. The payload is in mapped memory, in a block that was not live and is no larger than called for, and nothing else becomes live. |
| `BuddyAllocator.BuddyAllocator.Merge` | lib/mammoth/util/new.cpp:107-113 | Joins a block with its free buddy into one of twice the size at the lower address. |
| `BuddyAllocator.BuddyAllocator.Free` | lib/mammoth/util/new.cpp:98-122 | For a live payload: ends its life and leaves its memory in the block at the front of the list, merged as far as the links show. For one freed before and not handed out since: caught, changing nothing, exactly when its block is on the free list and not alone there; otherwise the memory is corrupt. |
| `BuddyAllocator.BuddyAllocator.Coalesce` | lib/mammoth/util/new.cpp:104-114 | The merging loop ends with a block that contains the one freed and shows no buddy left to merge with; it merges downward if the lower buddy is free, of the same size and linked; after an uncaught second free it merges nothing. |
| `BuddyAllocator.FreeTwiceAlone` | lib/mammoth/util/new.cpp:98-122 | With nothing else free, a second free is not caught and corrupts the memory. |
| `BuddyAllocator.FreeTwiceMerged` | lib/mammoth/util/new.cpp:98-122 | With its lower buddy free, of the same size and linked, a second free is not caught and corrupts the memory, however much is free. |
| `BuddyAllocator.SoleFreeCorrupts` | lib/mammoth/util/new.cpp:116-120 | Pushing the only free block again makes the list a loop, which no arrangement of blocks accounts for. |
| `BuddyAllocator.MergedFreeCorrupts` | lib/mammoth/util/new.cpp:116-120 | Pushing a block that was merged into a free one lists overlapping blocks, which no arrangement accounts for. |
| `BuddyAllocator.MissedHasNoBuddy` | lib/mammoth/util/new.cpp:104-106 | For a second free that is not caught the buddy test fails, so nothing is merged. |
| `BuddyAllocator.LinkedTellsFree` | lib/mammoth/util/new.cpp:101-106 | A free block shows a link in its header exactly when it is not the only one. |
| `BuddyAllocator.ExtentsDisjoint` | lib/mammoth/util/new.cpp:61-96 | No two blocks share a byte, also when a payload fills a region twice its arena. |
| `BuddyAllocator.PayloadsDisjoint` | lib/mammoth/util/new.cpp:61-96 | A byte of one live payload is in no other payload and in no block header. |
| `BuddyAllocator.PayloadMapped` | lib/mammoth/util/new.cpp:13-25 | Every live payload lies within the region mapped for an arena. |
| `BuddyAllocator.BuddyAllocator.ClientWrite` | lib/mammoth/util/new.cpp:92-95 | Whatever a client writes to its payload leaves the allocator intact, what is known of freed payloads included. |
| `YunqFormat.MessageFrame` | lib/yunq/message_view.h:64-89 | Whether a buffer holds a message depends only on the bytes of its size. |
| `YunqFormat.NumOfDigits` | lib/glacier/buffer/byte_buffer.h:20-35 | Writing a number little-endian and reading it gives the number. |
| `YunqSerializer.Serializer.constructor` | lib/yunq/serialize.h:16-28 | Extensions begin after the header and the slots. |
| `YunqSerializer.Serializer.WriteU64` | lib/yunq/serialize.cpp:17-21 | Puts the number in the slot and changes nothing else. |
| `YunqSerializer.Serializer.WriteI64` | lib/yunq/serialize.cpp:23-27 | Puts the two's complement in the slot and changes nothing else. |
| `YunqSerializer.Serializer.WriteString` | lib/yunq/serialize.cpp:29-42 | Puts the string in the next extension and points the slot at it. |
| `YunqSerializer.Serializer.WriteRepeatedU64` | lib/yunq/serialize.cpp:44-59 | Puts the numbers in the next extension and points the slot at them. |
| `YunqSerializer.Serializer.WriteCapability` | lib/yunq/serialize.cpp:61-68 | Stores the capability under the next number and puts the number in the slot; without a buffer, puts the capability there. |
| `YunqSerializer.Serializer.WriteMessage` | lib/yunq/serialize.h:79-97 | Serializes a nested message into the next extension and points the slot at it. |
| `YunqSerializer.Serializer.WriteRepeatedMessage` | lib/yunq/serialize.h:99-125 | Serializes messages one after another into the next extension and points the slot at them. |
| `YunqSerializer.Serializer.WriteHeader` | lib/yunq/serialize.cpp:10-15 | Writes the identifier, the two sizes and a zero checksum. |
| `YunqSerializer.Serializer.Write` | yunq/message.cpp.jinja:94-117 | The call the generated code makes for a field puts that field in place and nothing else. |
| `YunqSerializer.SerializeToBytes` | yunq/message.cpp.jinja:83-122 | Whatever the buffer held, it then holds the message, only its bytes changed, and the capability buffer has what the fields stored in order. |
| `YunqView.ReadRepeated` | lib/yunq/message_view.cpp:47-60 | The loop reads what the recursive definition does. |
| `YunqView.ReadRepeatedMessage` | lib/yunq/message_view.h:73-89 | The loop over nested messages parses what the recursive definition does. |
| `YunqView.ParsesMessage` | yunq/message.cpp.jinja:22-81 | Parsing a buffer that holds a message gives what a reader sees of it, for every schema and depth. |
| `YunqView.RefusesOthers` | lib/yunq/message_view.cpp:11-18 | A message is refused exactly when the four bytes it begins with are not those of the identifier. |
| `YunqRoundTrip.SeenByValue` | lib/yunq/message_view.cpp:62-65 | Without a capability buffer a reader sees the message itself. |
| `YunqRoundTrip.SeenOnTop` | lib/yunq/message_view.cpp:67-71 | With capabilities only in the outer message a reader sees the message itself, whatever the capability buffer held before. |
| `YunqRoundTrip.SafeSchemas` | lib/yunq/serialize.h:79-87 | Every message of a schema comes back with its capabilities exactly when nested messages of the schema have none. |
| `YunqRoundTrip.RoundTrip` | yunq/message.cpp.jinja:22-122 | Serializing and parsing gives the message back, with or without a capability buffer, and touches only its bytes. |
| `YunqRust.WriteAt` | rust/lib/yunq/src/buffer.rs:26-44 | A write is done exactly when it is in bounds, and otherwise changes nothing. |
| `YunqRust.FitsBySize` | yunq/rust/src/codegen.rs:168-193 | Whether all writes are in bounds is decided by the size, up to the eight header bytes never written. |
| `YunqRust.SerializeField` | yunq/rust/src/codegen.rs:56-101 | The code for a field succeeds exactly when its writes are in bounds, and then the field is in place. |
| `YunqRust.Serialize` | yunq/rust/src/codegen.rs:168-193 | Succeeds exactly when the message fits, and then the buffer holds it and the capability list has grown by its capabilities in order; writes nothing outside it. |
| `YunqRust.Parses` | yunq/rust/src/codegen.rs:129-224 | For schemas without repeated fields, parsing gives back the message, nested capabilities included, at every offset. |
| `YunqRust.RefusesOthers` | yunq/rust/src/codegen.rs:208-210 | A message that does not begin with the four bytes of the identifier is refused. |
| `YunqRust.AcceptsIdentified` | yunq/rust/src/codegen.rs:195-224 | Whatever is parsed has the identifier where it begins, and where every message in it begins. |
| `YunqRust.SerializeAsRequest` | rust/lib/yunq/src/message.rs:105-119 | Puts the sentinel, length and request number before the message, or reports that it does not fit. |
| `YunqRust.RefusesRequests` | rust/lib/yunq/src/message.rs:84-96 | A request is refused, with the exact error, unless it begins with the four bytes of the sentinel and has the identifier at byte 16. |
| `YunqRust.RoundTrip` | rust/lib/yunq/src/message.rs:84-119 | A request that fits is parsed as it was sent. |
| `YunqRepeated.Serialize` | yunq/rust/src/codegen.rs:33-42 | For a message of repeated numbers: succeeds exactly when everything is in bounds, and leaves, field by field, the numbers and then the slot, and last the header. |
| `YunqRepeated.RepeatedExactly` | yunq/rust/src/codegen.rs:33-42 | For any number of fields, all lists of given lengths come back, whatever the buffer held, exactly when the numbers, placed from the start of the buffer, keep clear of the header and of all slots, but for the places in the slots of empty lists of earlier fields. |
| `YunqRepeated.StartsComeBack` | rust/lib/yunq/src/message.rs:43-52 | At the start of a buffer all lists come back. |
| `YunqRepeated.RequestsCarryOne` | rust/lib/yunq/src/message.rs:105-119 | In a request lists come back exactly when all are empty, or there is one field with one number. |
| `YunqAgreement.OnTopAgrees` | yunq/rust/src/codegen.rs:56-101 | With capabilities in the outer message only, a buffer holds a message as C++ numbers capabilities exactly when it holds it as Rust does. |
| `YunqAgreement.RustReadsCpp` | yunq/rust/src/codegen.rs:129-224 | With capabilities in the outer message only and no repeated fields, the Rust parser reads what C++ left in the buffers. |
| `YunqAgreement.CppReadsRust` | lib/yunq/message_view.cpp:11-71 | With capabilities in the outer message only, the C++ parser reads what Rust left in the buffer and its capability list. |
| `Scheduler.YieldKeeps` | zion/scheduler/scheduler.cpp:68-100 | A thread that has stopped running hands over to a runnable thread or to the idle thread. |
| `Scheduler.PreemptKeeps` | zion/scheduler/scheduler.cpp:43-66 | Unless it ends the sleep of a killed thread, the timer never panics and never swaps to a thread that cannot run. |
| `Scheduler.StepKeeps` | zion/scheduler/scheduler.cpp:23-131 | No step that does not wake a killed thread panics, and each keeps every thread in one place that its state matches. |
| `Scheduler.RunKeeps` | zion/scheduler/scheduler.cpp:23-131 | The same in every state of every run. |
| `Scheduler.StepDoes` | zion/scheduler/scheduler.cpp:23-131 | For every step that does not wake a killed thread: who runs next, what the runnable, sleeping and wait queues hold in order, how many ticks each sleeper has left, and the state of every thread. |
| `Scheduler.TickDoes` | zion/scheduler/scheduler.cpp:43-66 | A tick puts the thread that ran, now runnable, at the very back behind the sleepers it woke, and the first thread of the queue that is not dying runs; if there is none, nothing is switched. |
| `Scheduler.WakeDoes` | zion/object/semaphore.cpp:12-19 | Waking makes the first thread waiting runnable, at the back of the runnable queue, and takes it off its wait queue; with none waiting nothing changes. |
| `Scheduler.PanicsExactly` | zion/object/thread.cpp:85-90 | A kernel step panics exactly when it wakes a thread that was killed: a sleeper on its last tick, or the first one waiting. |
| `Scheduler.RunPanicsExactly` | zion/scheduler/scheduler.cpp:23-131 | A run panics exactly when a step of it wakes a thread that was killed. |
| `Scheduler.KilledSleeperPanics` | zion/object/process.cpp:62-83 | A thread killed on the last tick of its sleep makes that tick panic. |
| `Scheduler.AwakeKillsNeverPanic` | zion/object/process.cpp:62-83 | If threads are killed only while they neither sleep nor wait, no run panics. |
| `Scheduler.OnePlace` | zion/scheduler/scheduler.h:31-36 | A thread is in at most one of running, runnable, sleeping and the wait queues; the idle thread is never both running and queued. |
| `Scheduler.StepAdvances` | zion/scheduler/scheduler.cpp:36-100 | No step moves a waiting thread back in the queue, and every tick moves it forward. |
| `Scheduler.BoundedWaiting` | zion/scheduler/scheduler.cpp:36-131 | A runnable thread with i others ahead, if it is not killed, runs within i + 1 ticks, whatever else happens. |
| `Scheduler.SleepSets` | zion/scheduler/scheduler.cpp:102-109 | Sleeping counts whole timer periods of 50 milliseconds, plus one. |
| `Scheduler.StaysAsleep` | zion/scheduler/scheduler.cpp:118-131 | Before its last tick a sleeper that is not killed stays asleep, its counter down by the ticks so far. |
| `Scheduler.ExactSleep` | zion/scheduler/scheduler.cpp:118-131 | The tick that ends the count leaves a sleeper that was not killed running or runnable. |
| `Scheduler.Scheduler.constructor` | zion/scheduler/scheduler.cpp:17-21 | The idle thread runs first, with the scheduler disabled. |
| `Scheduler.Scheduler.ClearDeadThreadsFromFront` | zion/scheduler/scheduler.cpp:111-116 | Drops dying threads up to the first live one. |
| `Scheduler.Scheduler.DecrementSleepingThreads` | zion/scheduler/scheduler.cpp:118-131 | Visits each sleeper once and moves those whose count ends, in order, to the runnable queue. |
| `Scheduler.Scheduler.Yield` | zion/scheduler/scheduler.cpp:68-100 | Does the yield step of the state machine. |
| `Scheduler.Scheduler.Enqueue` | zion/scheduler/scheduler.cpp:36-41 | Does the enqueue step of the state machine. |
| `Scheduler.Scheduler.Preempt` | zion/scheduler/scheduler.cpp:43-66 | Does the tick step of the state machine, with the effect stated for it, and keeps its invariant, unless it ends the sleep of a killed thread. |
| `Scheduler.Scheduler.Sleep` | zion/scheduler/scheduler.cpp:102-109 | Does the sleep step of the state machine, with the effect stated for it, and keeps its invariant. |
| `Scheduler.Scheduler.Block` | zion/object/thread.cpp:144-147 | Does the waiting step of the state machine, with the effect stated for it, and keeps its invariant. |
| `Scheduler.Scheduler.Wake` | zion/object/semaphore.cpp:12-19 | Makes the first thread waiting runnable, at the back of the runnable queue, and takes it off its wait queue; nothing else changes, and nothing at all with none waiting. Keeps the invariant, unless that thread was killed. |
| `Scheduler.Scheduler.Perform` | zion/object/thread.cpp:58-148 | Every step that does not wake a killed thread, starting, exiting and killing in any state included, does its step of the state machine, with the effect stated for it, and keeps the invariant. |
| `IntrusiveList.IntrusiveList.PushFront` | lib/glacier/container/intrusive_list.h:40-54 | Links, ends and size represent the sequence with the new element first. |
| `IntrusiveList.IntrusiveList.PushBack` | lib/glacier/container/intrusive_list.h:56-67 | Links, ends and size represent the sequence with the new element last. |
| `IntrusiveList.IntrusiveList.Remove` | lib/glacier/container/intrusive_list.h:69-90 | Links, ends and size represent the sequence without the element, whose own links are cleared. |
| `IntrusiveList.IntrusiveList.PopFront` | lib/glacier/container/intrusive_list.h:92-109 | Returns and removes the first element, whose links are cleared. |
| `IntrusiveList.IntrusiveList.PopBack` | lib/glacier/container/intrusive_list.h:111-125 | Returns and removes the last element, whose links are cleared. |
| `IntrusiveList.MoveDue` | zion/scheduler/scheduler.cpp:118-131 | Following links while removing nodes visits each node once, and leaves two lists that represent the right sequences. |
| `Capabilities.TakeTakes` | zion/syscall/ipc.cpp:28-45 | Collecting the listed capabilities succeeds exactly when they are distinct, present and transmittable; what precedes a failure has left the table. |
| `Capabilities.Linearity` | zion/syscall/ipc.cpp:18-85 | After any run of calls, failed ones included, no capability object is in two places. |
| `Capabilities.RunKeeps` | zion/syscall/ipc.cpp:18-221 | Every run keeps each capability where a single record of places says. |
| `Capabilities.NoAmplification` | zion/syscall/capability.cpp:7-20 | After any run, a capability there was keeps its object and permissions, and a new one to an old object has no more permissions than one that was there with the duplicate permission. |
| `Capabilities.IdsNotReused` | zion/capability/capability_table.cpp:7-15 | After any run, an id given out before names the capability it named, or nothing. |
| `Capabilities.StaysPut` | zion/syscall/ipc.cpp:36-44 | After any run, a capability without the transmit permission is in the table entry it was in, or held nowhere. |
| `Capabilities.SendExactly` | zion/syscall/ipc.cpp:97-210 | A send on a channel, port or reply port succeeds exactly with the write permission on the right kind of object, a small message, sendable capabilities, and a reply port not used before; SendDoes says what it then does. |
| `Capabilities.RecvExactly` | zion/syscall/ipc.cpp:107-221 | A receive takes the front message exactly with the read permission and large enough buffers, and once only from a reply port; its capabilities then have consecutive new ids and the reply capability the next one, older ids and other tables stay. Otherwise nothing changes. |
| `SystemCalls.CreateDoes` | zion/syscall/ipc.cpp:117-122 | A new object, and a capability to it under the next id of the process, and nothing else. |
| `SystemCalls.FirstId` | zion/capability/capability_table.h:33-35 | The ids of a process that had none begin at 0x100. |
| `SystemCalls.DuplicateDoes` | zion/syscall/capability.cpp:17-19 | A copy has the object of the original and exactly the permissions that the mask leaves, under the next id of the process; nothing else changes. |
| `SystemCalls.DuplicateErrors` | zion/syscall/capability.cpp:10-15 | There is no copy exactly when there is no original, or it may not be copied; then nothing changes. |
| `SystemCalls.ReleaseDoes` | zion/syscall/capability.cpp:22-28 | The id names nothing any more, nothing else changes, and a missing one is reported. |
| `SystemCalls.ReleaseAllDoes` | zion/capability/capability_table.cpp:37-45 | The table of the process is empty and keeps its next id; nothing else changes. |
| `SystemCalls.SendDoes` | zion/syscall/ipc.cpp:97-105 | A send that succeeds puts one message at the back of one queue, that of the other end for a channel and that of the object itself otherwise; it carries what the ids named, in order, which the sender then lacks. Nothing else changes. |
| `SystemCalls.SendErrors` | zion/syscall/ipc.cpp:18-48 | The error of every send that fails, in the order they are found, and what is gone from the table then: the ids before the first one that cannot be sent. |
| `SystemCalls.RequestDoes` | zion/syscall/ipc.cpp:174-190 | A request that succeeds joins the queue of the endpoint with what the ids named and the end of a new reply port that may be written and passed on; the sender has the end that may only be read, under its next id, and lacks what it sent. |
| `SystemCalls.RequestErrors` | zion/syscall/ipc.cpp:174-190 | The error of every request that fails; without the permission nothing changes, and after that the reply port stays behind. |
| `SystemCalls.ReplyPortDoes` | zion/syscall/ipc.cpp:181-187 | A reply port has one end with the read permission, filed under the next id, and one with the write and transmit permissions. |
| `SystemCalls.RecvErrors` | zion/syscall/ipc.cpp:107-221 | The error of every receive, in the order they are found. |
| `SystemCalls.HandOverDoes` | zion/syscall/process.cpp:28-38 | The capability is handed over exactly when it is there and may be passed on; then the child has it under its next id and the parent lacks it. Otherwise nothing changes. |
| `SystemCalls.SpawnDoes` | zion/syscall/process.cpp:17-41 | Without the permission nothing changes. Otherwise the parent has the new process and its address space under its next two ids, and then hands over the bootstrap capability if there is one. |
| `Capabilities.DeliverKeeps` | zion/syscall/ipc.cpp:174-188 | A send, with or without a reply port, keeps every capability in one place. |
| `Capabilities.ReceiveKeeps` | zion/syscall/ipc.cpp:50-85 | A receive keeps every capability in one place. |
| `Capabilities.SpawnKeeps` | zion/syscall/process.cpp:17-41 | Starting a process, with a capability handed over or a failure to do so, keeps every capability in one place. |
| `Capabilities.CapabilityTable.constructor` | zion/capability/capability_table.h:33-35 | Ids begin at 0x100. |
| `Capabilities.CapabilityTable.AddExistingCapability` | zion/capability/capability_table.cpp:7-15 | Through the hash map, files a capability under an id not in use, so the panic for a reused id is never reached. |
| `Capabilities.CapabilityTable.GetCapability` | zion/capability/capability_table.cpp:17-24 | Testing and reading through the hash map returns the capability of the id and leaves the table as it was. |
| `Capabilities.CapabilityTable.ReleaseCapability` | zion/capability/capability_table.cpp:26-35 | Testing, reading and deleting through the hash map together return the capability and remove its id alone, and never store a default, for any hash function. |
| `Capabilities.CapabilityTable.ReleaseAll` | zion/capability/capability_table.cpp:37-45 | Leaves no capability behind; divides by zero exactly if none was ever added. |
| `Capabilities.CapabilityTable.TranslateRequest` | zion/syscall/ipc.cpp:28-47 | The loop collects the listed capabilities, up to the first that cannot be sent. |
| `Capabilities.CapabilityTable.TranslateResponse` | zion/syscall/ipc.cpp:65-70 | The loop files the received capabilities under consecutive new ids. |
| `MessageQueue.RunKeeps` | zion/lib/message_queue.cpp:6-41 | In every run what was received and what is pending is what was sent, in order, and while a receiver waits pending messages do not outnumber woken receivers and failed ones. |
| `MessageQueue.DeliveredInOrder` | zion/lib/message_queue.cpp:6-41 | In every run the messages sent are those received, in order, and then those pending. |
| `MessageQueue.NextDelivered` | zion/lib/message_queue.cpp:18-41 | After every run a receiver waits exactly if every message sent was received; otherwise it gets the first one that was not, or an error exactly if its buffers are too small for it. |
| `MessageQueue.PopExactly` | zion/lib/message_queue.cpp:18-41 | What a receive gives and leaves, told from what was sent and received before. |
| `MessageQueue.NoLostWakeup` | zion/lib/message_queue.cpp:6-41 | No wakeup is lost anywhere in a run exactly when no step of it has a receiver that was let go find its buffers too small while others wait and no spare receiver is on its way. |
| `MessageQueue.StepLosesExactly` | zion/lib/message_queue.cpp:31-40 | A step after which more messages are pending than receivers are on their way, while one waits, is exactly such a step. |
| `MessageQueue.RoomIsEnough` | zion/lib/message_queue.cpp:31-40 | Runs in which receivers that were let go have room lose no wakeup. |
| `MessageQueue.LostWakeup` | zion/lib/message_queue.cpp:31-40 | A woken receiver with too small a buffer leaves a message pending and another receiver waiting. |
| `MessageQueue.UnboundedMessageQueue.PushBack` | zion/lib/message_queue.cpp:6-16 | Puts the message at the back, and lets the first waiting receiver go. |
| `MessageQueue.UnboundedMessageQueue.PopFront` | zion/lib/message_queue.cpp:18-41 | Waits, at the back of those waiting, exactly if nothing is pending; reports a buffer too small, changing nothing, exactly if the data or the capabilities of the first message do not fit; otherwise takes exactly that message. |
| `MessageQueue.AtMostOneReply` | zion/lib/message_queue.cpp:58-111 | A reply port accepts at most one message and delivers exactly that one, at most once. |
| `MessageQueue.ReplyDelivered` | zion/lib/message_queue.cpp:58-111 | In every run a reply port accepts the first message without a reply port of its own, and has handed it out exactly if someone looked after it was there with room for it. |
| `MessageQueue.FirstTakes` | zion/lib/message_queue.cpp:82-111 | Of all looks at a reply port in a run exactly the first that can take the message gets it. |
| `MessageQueue.PopSingleExactly` | zion/lib/message_queue.cpp:95-110 | What a look at a reply port gives and leaves, told from what was accepted and handed out before. |
| `MessageQueue.PushSingleExactly` | zion/lib/message_queue.cpp:58-80 | When a reply port accepts a message, told from what it accepted before. |
| `MessageQueue.SingleMessageQueue.PushBack` | zion/lib/message_queue.cpp:58-80 | Accepts a message exactly if it carries no reply port and none was accepted before; then it is the one accepted. |
| `MessageQueue.SingleMessageQueue.PopFront` | zion/lib/message_queue.cpp:82-111 | Waits exactly if no message was accepted, refuses exactly if it was handed out before, reports a buffer too small exactly if it was not and does not fit, and otherwise hands out exactly the message accepted. |
| `HashMap.ResizeKeeps` | lib/glacier/container/hash_map.h:208-220 | Resizing to any size keeps the value of every key, loses and duplicates nothing, and puts every key in its bucket. |
| `HashMap.PushKeeps` | lib/glacier/container/hash_map.h:139-140 | Adding a new key to its bucket changes what is found for that key only. |
| `HashMap.LoadBound` | lib/glacier/container/hash_map.h:33-38 | A load of at most 75 means fewer than 76 entries per hundred buckets. |
| `HashMap.HashMap.constructor` | lib/glacier/container/hash_map.h:18 | An empty map. |
| `HashMap.HashMap.Resize` | lib/glacier/container/hash_map.h:208-220 | The two loops keep the value of every key and the number of pairs. |
| `HashMap.HashMap.ResizeIfNecessary` | lib/glacier/container/hash_map.h:222-229 | Makes eight buckets if there are none, and twice as many when the load is above 75, with the same contents; so there is at least one, and fewer than 76 entries per hundred buckets. |
| `HashMap.HashMap.Contains` | lib/glacier/container/hash_map.h:111-125 | Finds exactly the keys of the map, for any hash function. |
| `HashMap.HashMap.Insert` | lib/glacier/container/hash_map.h:127-159 | Adds a new key or reports that it exists; the size and the placement of keys stay right, and there are buckets. |
| `HashMap.HashMap.Update` | lib/glacier/container/hash_map.h:161-191 | Replaces the value of a key or reports that it is missing. |
| `HashMap.HashMap.Delete` | lib/glacier/container/hash_map.h:193-206 | Removes a key or reports that it is missing. |
| `HashMap.HashMap.At` | lib/glacier/container/hash_map.h:80-94 | Returns the value of a key; stores a default for a missing one, after which the size matches exactly if the key was there. |
| `LinkedList.LinkedList.PushFront` | lib/glacier/container/linked_list.h:81-99 | The list represents the sequence with the item first. |
| `LinkedList.LinkedList.PushBack` | lib/glacier/container/linked_list.h:67-117 | The list represents the sequence with the item last. |
| `LinkedList.LinkedList.PopFront` | lib/glacier/container/linked_list.h:119-128 | Returns and removes the first item. |
| `LinkedList.LinkedList.Remove` | lib/glacier/container/linked_list.h:130-145 | Removes the first equal item, or nothing if there is none. |
| `BlockReader.Coalesce` | sys/victoriafalls/fs/ext2/ext2_block_reader.cpp:85-101 | The ranges, one after another, are the sectors of the listed blocks in order; no two neighbours could be joined; and all are short exactly when no run of blocks is too long. |
| `BlockReader.RunSectors` | sys/victoriafalls/fs/ext2/ext2_block_reader.cpp:89-100 | The sectors of a run of consecutive blocks are one range. |
| `BlockReader.ReadsInOrder` | sys/denali/denali_server.cpp:46-53 | With short ranges, sector i of the request ends up at byte 512 times i of the region. |
| `BlockReader.FaithfulWhenShort` | sys/denali/denali_server.cpp:34-59 | The region is right for every disk and earlier memory exactly when every range has fewer than 65536 sectors. |
| `BlockReader.HandleReadMany` | sys/denali/denali_server.cpp:34-59 | The two loops allocate and fill the region as specified. |
| `BlockReader.ReadBlocks` | sys/victoriafalls/fs/ext2/ext2_block_reader.cpp:85-109 | Reading a list of blocks through the server puts sector r of block j, for all of them, at sector j times the block size plus r of the result, for every disk and memory exactly if no run of blocks spans 65536 sectors; otherwise a sector of the result is what memory held before. |

## Left out

- Assembly, descriptor tables, interrupt controllers, boot data and device drivers: hardware access; the memory map is an input.
- TLB invalidation and preemption inside kernel sections: steps of the kernel are atomic here.
- InitializePml4 and CleanupPml4: the shared kernel half of the tables and the release of table pages.
- Destruction of memory objects, CopyBytesToObject and views of objects: the address space model only ever adds frames to objects.
- Duplicating a memory object: it makes a new object over the same memory, which the capability model would see only as a new object.
- The `allocated_pages_` statistic and the usage dump of the physical memory manager: reports only.
- Slab heap, kernel and user stack managers, Vector, String and formatting: easier repeats of the allocator and container results.
- Yunq lexer, parser and code formatting, repeated capabilities, repeated strings and bytes: unfinished in both languages or outside the wire format.
- Repeated messages in Rust, and repeated numbers beside fields of other types: the emitted code places them by absolute buffer position, too; messages whose fields are all repeated numbers are modelled exactly.
- YunqRepeated.Serialize: lists for which the 32-bit sizes do not wrap.
- BlockReader.FaithfulWhenShort: the device is taken to move as many sectors as the low 16 bits of the count say. A device that reads a count of 0 as 65536, or whose descriptor's 22-bit byte count (sys/denali/ahci/ahci.h:104-108), set to 512 times the sectors, overflows from 8192 sectors on, is not modelled.
- Mutex locking around the allocator and the queues, and `WriteKernel`, which fills a queue before anything runs.
- YunqView.ParsesMessage: parsing is specified for buffers that hold a message; reads outside a buffer, a nested message with a wrong identifier, and a repeated message of length zero are left unspecified, as in the C++ code.
- YunqSerializer.SerializeToBytes: the message must fit the buffer and 32-bit offsets, which the C++ code does not check.
- YunqRust.Serialize: schemas without repeated fields, for which the code does not work in general, and messages smaller than 4 GiB, so that the 32-bit sizes do not wrap.
- YunqRust.SerializeField: fields that are not repeated, for the same reason.
- YunqRust.Parses: schemas without repeated fields, for the same reason.
- YunqRust.SerializeAsRequest: schemas without repeated fields, for the same reason.
- YunqRust.RoundTrip: schemas without repeated fields, for the same reason.
- BuddyAllocator.BuddyAllocator.Free: pointers that are live, or were freed and not handed out since; what a header in memory handed out again holds is up to the client. Addresses are unbounded naturals.
- AddressSpace.AddressSpace.UnmapRange: ranges for which the loop ends; SweepEndsExactly says which those are.
- AddressSpace.AddressSpace.FreeAddressRange: the same ranges, when the process is not dying and the call gets as far as the sweep.
- HashMap.HashMap.Delete: needs a first insert, because with no buckets the code divides by zero.
- HashMap.HashMap.At: needs a first insert for the same reason.
- LinkedList.LinkedList.Remove: needs an item in the list, because the code reads through the front pointer unchecked; so does PopFront.
- Scheduler.Scheduler.Perform: the steps that panic, which PanicsExactly determines, have no result.
- PageTable.PageTables.EnsureResident: a page mapped to frame zero counts as not resident in the code, and is the one way besides a lack of pages that the call can fail.
