# robot_ide core, modelled in Dafny

This project models the browser-side core of the robot IDE in Dafny and proves
properties of the model. The core has four parts.

- **The WeiruiKernel bridge.** This is the host side of a robot application
  compiled to WebAssembly.
  - `host_func.ts` reads a request from guest memory, calls a host handler and
    writes the encoded `HostResult` back.
  - `errors.ts` defines the kernel's error classes.
  - `kernel_worker.ts` is the worker's message state machine.
  - `func_table.ts` is the worker's blocking request channel to the main thread.
  - `worker_client.ts` is the main thread's table of pending requests.
- **`MuJoCoInstance`.** These are the accessors that read and write a MuJoCo
  model and simulation: actuator controls with clamping, joint positions,
  actuator and joint info, and the Z-up to Y-up coordinate swizzles.
- **The file trees.**
  - The sidebar `FileTree` class.
  - The `workplace` and `fileTree` stores.
  - These cover sorting, the pre-order search by path, adding, removing,
    renaming, building folders from a path, flattening, and loading the entries
    of a robot archive.
- **Two small stores.** The notification store keeps a list of toasts with a
  default duration and removal by id. The console store keeps the last message
  and a counter.

Each operation is a pure function or a method over immutable datatypes.
- An in-place edit of the object the tree search returns becomes `Update`. It
  rewrites the first item with that path in pre-order.
- `Count(items, p, ks)` is how many items the search can reach with path `p`
  and kind in `ks`. It is the measure the tree lemmas use to say what was added
  or removed and what was left alone.
- `Unique` says no path occurs twice.
- `IsFolderAt` says the search finds a folder at a path.
- `SortedTree` says the top level and the children of every folder the search
  can reach are sorted, which is what the sidebar shows.

Modules:
- `Common`: option type, bytes, `i32`, the NUL-terminated name scan.
- `KernelErrors`
- `HostFunc`
- `Messages`
- `FuncTable`
- `KernelWorker`
- `WorkerClient`
- `MujocoInstance`
- `PathStrings`: JavaScript's `split`/`join`/`lastIndexOf`/`replace` on paths.
- `FileItems`: the tree operations the three trees share.
- `TreeOrder`: every list of a tree in order, and paths that follow the
  tree's shape.
- `SidebarTree`: `FileTree.ts`.
- `TreeStore`: the two stores.
- `Notifications`
- `ConsoleStore`

## Model

| member | source | states |
|---|---|---|
| Common.ScanCString | src/mujoco_wasm/MujocoInstance.ts:190-196 | The name scan stops at the first zero byte at or after the start address, or at the end of the name table. The bytes it passes over are the NUL-free C string at that address. |
| Common.CStringAt | src/mujoco_wasm/MujocoInstance.ts:190-196 | The C string at an address is NUL-free and runs from the address to the first zero byte or the end of the table. It is empty past the table. |
| Common.CStringUnique | src/mujoco_wasm/MujocoInstance.ts:190-196 | Any end that follows a NUL-free run and sits at a zero byte or the end of the table is the one the scan finds. |
| KernelErrors.BaseError | src/lib/weirui_kernel/errors.ts:1-9 | The base error keeps the given code and message verbatim. A code outside 10000-10002 has no recoverable cause. |
| KernelErrors.MakeError | src/lib/weirui_kernel/errors.ts:11-30 | Each subclass uses its own code and prefixes its class's text to the message. Its class and its cause can be read back from the result. |
| KernelErrors.InvalidArgumentError | src/lib/weirui_kernel/errors.ts:11-16 | Code 10000, message "Invalid argument: " + msg, cause msg. |
| KernelErrors.InternalError | src/lib/weirui_kernel/errors.ts:18-23 | Code 10001, message "Internal error: " + msg, cause msg. |
| KernelErrors.MemoryOutOfBoundsError | src/lib/weirui_kernel/errors.ts:25-30 | Code 10002, message "MemoryOutOfBounds error: " + msg, cause msg. |
| KernelErrors.ClassOf | src/lib/weirui_kernel/errors.ts:13-27 | A code names an error class exactly when it is one of 10000, 10001 and 10002. |
| KernelErrors.CauseOf | src/lib/weirui_kernel/errors.ts:11-30 | A recovered cause is the message with the class prefix of the error's code removed. |
| KernelErrors.CodesDistinct | src/lib/weirui_kernel/errors.ts:13-27 | The three classes have pairwise different codes. |
| KernelErrors.ErrorRoundTrip | src/lib/weirui_kernel/errors.ts:11-30 | An error built from a class and a message decodes back to that class and that message. |
| HostFunc.RelativeIndex | src/lib/weirui_kernel/host_func.ts:96 | A slice index in range is kept. A negative index counts back from the end and stops at 0. An index past the end is the end. |
| HostFunc.JsSlice | src/lib/weirui_kernel/host_func.ts:96 | `ArrayBuffer.slice` with in-range bounds gives exactly that range. Otherwise it is the range between the normalised start and end, or empty when the end does not lie after the start. It is never longer than the buffer. |
| HostFunc.JsSliceFromEnd | src/lib/weirui_kernel/host_func.ts:96 | `slice(-n)` is the last `n` bytes, and all of them when `n` exceeds the length. |
| HostFunc.WriteResp | src/lib/weirui_kernel/host_func.ts:61-72 | Without exports the call throws a TypeError. Otherwise the encoding goes to the allocator's pointer and no other byte of guest memory changes. An allocation that does not fit throws a RangeError. |
| HostFunc.OutcomeResult | src/lib/weirui_kernel/host_func.ts:99-115 | The result holds exactly one of data and error. A returned kernel error is copied verbatim. A thrown error becomes an InternalError whose cause is the thrown message. |
| HostFunc.RunHostFunc | src/lib/weirui_kernel/host_func.ts:74-119 | Not loaded: error 500, handler not called, writing the reply throws. An extent past the end of memory: error 10002 and the handler is not called. An in-range extent: the handler sees exactly those bytes and the reply is its outcome. |
| HostFunc.RejectedCallIgnoresHandler | src/lib/weirui_kernel/host_func.ts:81-95 | A rejected request gives the same call whatever the handler is. |
| HostFunc.NegativePointerBypassesBoundsCheck | src/lib/weirui_kernel/host_func.ts:90-96 | Pointer -1 with length 1 passes the bounds check, and the handler receives no bytes. |
| HostFunc.NegativeLengthBypassesBoundsCheck | src/lib/weirui_kernel/host_func.ts:90-96 | A negative length passes the bounds check, and the handler receives no bytes. |
| HostFunc.RunHostFuncChecked | src/lib/weirui_kernel/host_func.ts:90-96 | With the corrected check, the handler runs exactly when the extent is inside memory, and then sees exactly `len` bytes. Anything else gets error 10002. |
| Messages.OrElse | src/lib/weirui_kernel/worker_client.ts:115 | A missing or empty error text gives the fallback, as JavaScript's `or` does; any other text is kept. |
| FuncTable.Init | src/lib/weirui_kernel/func_table.ts:42-48 | After `init` the buffers are ready and the message counter is unchanged. |
| FuncTable.InitEnablesRequests | src/lib/weirui_kernel/func_table.ts:9-18 | Before `init` a request posts nothing. After `init` the next request is posted under the id the counter held before `init`. |
| FuncTable.ValidResponse | src/lib/weirui_kernel/func_table.ts:28-29 | The response is the longest NUL-free prefix of the buffer, or the whole buffer when it has no zero byte. |
| FuncTable.SyncRequest | src/lib/weirui_kernel/func_table.ts:9-38 | Without buffers it throws before posting. Otherwise it resets the flag, posts `{type, data, id}` with the current id, and increments the counter. A timeout throws the timeout message. Otherwise the outcome is the decoded response's. |
| FuncTable.ResponseOutcome | src/lib/weirui_kernel/func_table.ts:31-37 | Success returns the data. A failure throws its error text, or the "Unknown error during" message when that text is empty. A parse failure throws. |
| FuncTable.GetJointPos | src/lib/weirui_kernel/func_table.ts:51-54 | Before `init` it throws the not-initialised error and posts nothing. Otherwise it posts a `getJointPos` request with the current id and advances the id. A timeout throws the timeout error. Otherwise it returns the decoded response's data or throws its error. |
| FuncTable.GetJointPosReadsReply | src/lib/weirui_kernel/func_table.ts:27-37 | When the response buffer holds a NUL-free reply followed by a zero byte, `getJointPos` reads exactly that reply, whatever follows the zero. A successful reply's data is returned, and a failed one throws. |
| FuncTable.SetActuatorControls | src/lib/weirui_kernel/func_table.ts:57-61 | It posts the indices and values. It returns nothing on success and throws exactly when the request throws. |
| FuncTable.PostedIdsIncrease | src/lib/weirui_kernel/func_table.ts:18 | Over a series of requests the posted ids are the counter, the counter plus one, and so on, strictly increasing. |
| KernelWorker.OnMessage | src/lib/weirui_kernel/kernel_worker.ts:18-52 | A missing event posts only the format error. The first valid message posts `workerReady` first, and no later message does. A stored kernel is never replaced. |
| KernelWorker.Handle | src/lib/weirui_kernel/kernel_worker.ts:47-141 | Ping with an id gives pong. `init` with a kernel present succeeds at once. `init` with data stores a kernel, and `init` with absent or null data and no kernel fails with a TypeError. Calls without a kernel fail with "Kernel not initialized". `setActuatorControls` with absent or null data fails with a TypeError before the kernel is called. A kernel call that throws posts its error under the same type and id. Unknown types are answered with `unknownMessageType`. |
| KernelWorker.InitSettled | src/lib/weirui_kernel/kernel_worker.ts:71-82 | The async completion posts success or the failure's message, under the request's id, and leaves the state alone. |
| KernelWorker.StepReadyCount | src/lib/weirui_kernel/kernel_worker.ts:35-45 | One message posts `workerReady` exactly when it is the first valid one, and sets the flag. |
| KernelWorker.WorkerReadyAtMostOnce | src/lib/weirui_kernel/kernel_worker.ts:15-45 | Over any run, `workerReady` is posted once if some message is valid and never otherwise. |
| KernelWorker.FailedInitKeepsKernel | src/lib/weirui_kernel/kernel_worker.ts:61-82 | A failed asynchronous init still leaves the kernel stored, so the next `init` reports success immediately. |
| WorkerClient.Register | src/lib/weirui_kernel/worker_client.ts:127-142 | It takes a fresh id, records it as pending and posts. If posting throws, the entry is removed and the promise rejects. |
| WorkerClient.Ping | src/lib/weirui_kernel/worker_client.ts:49-76 | A ping posts `{type: 'ping', id}` with a fresh id and registers a ping entry. |
| WorkerClient.SendMessage | src/lib/weirui_kernel/worker_client.ts:123-143 | It posts `{type, data, id}` with a fresh id and registers a request entry. |
| WorkerClient.PingTimeout | src/lib/weirui_kernel/worker_client.ts:52-55 | A pending ping is removed and rejected with "Ping timeout". A ping that was already settled is unaffected. |
| WorkerClient.HandleMessage | src/lib/weirui_kernel/worker_client.ts:78-121 | A message without a type, or `workerReady`, does nothing. Pong settles its pending id. A reply with a pending id resolves with its data or rejects with its error or "Unknown error". Anything else is a notification. |
| WorkerClient.SettledAtMostOnce | src/lib/weirui_kernel/worker_client.ts:96-120 | Over any run no id is settled twice, and every settled id was pending at the start or taken during the run. |
| WorkerClient.PostedIdsIncrease | src/lib/weirui_kernel/worker_client.ts:128 | Posted ids are fresh and strictly increasing. |
| MujocoInstance.JointKindOf | src/mujoco_wasm/MujocoInstance.ts:626-648 | hinge and slide have dimension 1, ball 3, free 6. Any other type is "unknown" with dimension 0. |
| MujocoInstance.ClampControl | src/mujoco_wasm/MujocoInstance.ts:155-158 | An in-range value is kept. A value below or above the range becomes the bound. |
| MujocoInstance.SetActuatorControl | src/mujoco_wasm/MujocoInstance.ts:142-165 | It succeeds exactly for indices in `[0, nu)`, and a failure changes nothing. Success writes the clamped (or unlimited) value at that index only. |
| MujocoInstance.SetActuatorControls | src/mujoco_wasm/MujocoInstance.ts:167-178 | Different lengths fail with nothing written. Otherwise the pairs are written in order up to the first bad index. The result is `undefined` (`None`) exactly when no index is bad. |
| MujocoInstance.ControlsStayInRange | src/mujoco_wasm/MujocoInstance.ts:150-163 | Writing controls never takes a limited actuator outside its range. |
| MujocoInstance.Name | src/mujoco_wasm/MujocoInstance.ts:190-196 | A name is the NUL-free run of the name table at its address, ending at a zero byte or the table's end. |
| MujocoInstance.GetJointPos | src/mujoco_wasm/MujocoInstance.ts:183-207 | One entry per joint: the `qpos` entry at the joint's address. |
| MujocoInstance.ActuatorInfoAt | src/mujoco_wasm/MujocoInstance.ts:557-605 | Name, control, kind (position when the bias type is 1), the control range or -1..1, the force range or -1..1, and the joint id for joint transmissions or -1. |
| MujocoInstance.GetActuatorInfo | src/mujoco_wasm/MujocoInstance.ts:552-607 | One info per actuator, in index order. |
| MujocoInstance.GetActuatorNamesAndRanges | src/mujoco_wasm/MujocoInstance.ts:222-249 | One entry per actuator: its name and its control range, or -3.14..3.14 when unlimited. |
| MujocoInstance.GetJointInfo | src/mujoco_wasm/MujocoInstance.ts:609-664 | Per joint: its id, name, type and dimension from the table, and that many `qpos` entries from its address. |
| MujocoInstance.GetPosition | src/mujoco_wasm/MujocoInstance.ts:525-535 | The inverse swizzle of the result gives back the buffer's three entries. |
| MujocoInstance.GetQuaternion | src/mujoco_wasm/MujocoInstance.ts:543-550 | The inverse reordering gives back the buffer's four entries, and the norm is preserved. |
| PathStrings.Split | src/components/sidebar/FileTree.ts:169 | At least one piece. Exactly one when the path has no separator. |
| PathStrings.JoinSplit | src/components/sidebar/FileTree.ts:199-210 | Joining the split pieces gives the path back. |
| PathStrings.SplitJoin | src/components/sidebar/FileTree.ts:199-210 | Splitting the join of separator-free pieces gives the pieces back. |
| PathStrings.ParentPath | src/stores/workplace.ts:76 | `substring(0, lastIndexOf('/'))` is the text before the last separator, or "" when there is none. |
| PathStrings.LastSegment | src/stores/workplace.ts:204 | The text after the last separator. The path is the parent, a separator and this segment. |
| PathStrings.SplitLast | src/components/sidebar/FileTree.ts:199-210 | The popped last piece is the last segment, and the remaining pieces join to the parent path. |
| PathStrings.IndexOfSub | src/components/sidebar/FileTree.ts:111 | The first occurrence of the pattern, and no occurrence before it. |
| PathStrings.ReplaceFirst | src/components/sidebar/FileTree.ts:111 | `replace` with a string changes only the first occurrence. |
| PathStrings.ReplaceSelf | src/components/sidebar/FileTree.ts:111 | Replacing a pattern by itself changes nothing. |
| PathStrings.Sibling | src/components/sidebar/FileTree.ts:109-111 | The renamed path keeps the parent path and ends in the new name. |
| PathStrings.PrefixStep | src/stores/workplace.ts:51-52 | Each round of the folder loop appends a separator and the next piece to the current path. |
| FileItems.Sort | src/stores/workplace.ts:23-30 | The result is sorted with folders first, then by name, and is a permutation of the input. |
| FileItems.Insert | src/stores/workplace.ts:23-30 | Insertion keeps the order and adds exactly the item. |
| FileItems.SortIdempotent | src/stores/workplace.ts:23-30 | Sorting an already sorted list returns it unchanged, since the sort is stable. |
| FileItems.Find | src/stores/workplace.ts:32-44 | The item found has the path searched for. |
| FileItems.FirstWithPath | src/stores/workplace.ts:35 | The first item with the path, and none when no item has it. |
| FileItems.FindIsFirstInPreorder | src/stores/workplace.ts:32-44 | `findItemByPath` returns the first item with the path in a pre-order walk of the tree. |
| FileItems.FindIffCounted | src/stores/workplace.ts:32-44 | The search finds a path exactly when some reachable item has it. |
| FileItems.FindPermuted | src/stores/workplace.ts:23-44 | Reordering a list does not change what the search finds at a path it reaches at most once. |
| FileItems.UpdateCount | src/stores/workplace.ts:89-92 | Editing the found item changes the counts by exactly what the edit changes in that item's subtree. |
| FileItems.FindAfterUpdate | src/stores/workplace.ts:96-101 | After an edit that keeps the path, the search finds the edited item. |
| FileItems.UpdateUndo | src/stores/workplace.ts:96-101 | An edit followed by its inverse gives the original tree. |
| FileItems.PutCount | src/components/sidebar/FileTree.ts:105-111 | Putting a new item in place of the found one swaps the found item's subtree of paths for the new item's. |
| FileItems.FindPut | src/components/sidebar/FileTree.ts:105-111 | When nothing had the new item's path, the search finds the new item there after the replacement. |
| FileItems.FindAfterSortChildren | src/components/sidebar/FileTree.ts:126-137 | Re-sorting one folder's children does not change what the search finds at a path it reaches at most once and that does not hold that folder. |
| FileItems.AddChildCount | src/stores/workplace.ts:89-92 | Pushing into a found folder's children and re-sorting adds exactly the pushed item's subtree. |
| FileItems.AddRootCount | src/stores/workplace.ts:77-80 | Pushing at the top level and re-sorting adds exactly the pushed item's subtree. |
| FileItems.AddKeepsUnique | src/stores/workplace.ts:73-94 | Adding an item with a new path and no children keeps every path unique. |
| FileItems.TakeFirst | src/stores/workplace.ts:187-188 | `findIndex` and `splice` cut out the first item with the path, and nothing happens when none has it. The rest is the input minus that one item. |
| FileItems.TakeOnly | src/stores/workplace.ts:187-188 | With unique paths, the item cut out is the item given. |
| FileItems.ToggleFolder | src/stores/workplace.ts:96-101 | It succeeds exactly when the search finds a folder. It flips that folder's `expanded` flag and changes no count. |
| FileItems.ToggleTwice | src/components/sidebar/FileTree.ts:143-150 | Toggling twice gives the original tree. |
| FileItems.SelectFile | src/stores/workplace.ts:103-108 | It selects exactly when the search finds a file, and returns that file. |
| FileItems.SelectedIsFirstInPreorder | src/components/sidebar/FileTree.ts:153-160 | The selected file is the first item with the path in pre-order. |
| FileItems.FlatFiles | src/stores/workplace.ts:110-123 | Every item listed is a file. |
| FileItems.AllFolders | src/stores/workplace.ts:125-139 | Every item listed is a folder. |
| FileItems.FlatFilesArePreorderFiles | src/stores/workplace.ts:110-123 | `getFlatFileList` lists the tree's files in pre-order. |
| FileItems.AllFoldersArePreorderFolders | src/stores/workplace.ts:125-139 | `getAllFolders` lists the tree's folders in pre-order. |
| TreeOrder.SortTree | src/stores/workplace.ts:23-30 | Sorting a list whose lower lists are in order puts the whole tree in order. |
| TreeOrder.TakeFirstTree | src/stores/workplace.ts:187-193 | Cutting the first item with a path out of a list keeps the tree in order. |
| TreeOrder.FoundTree | src/stores/workplace.ts:32-44 | The children of a folder the search finds in a tree in order are in order. |
| TreeOrder.UpdateTree | src/stores/workplace.ts:96-101 | Editing the found item without changing its name or kind, and with its own lists in order, keeps the tree in order and the keys of every list. |
| TreeOrder.AddChildTree | src/stores/workplace.ts:89-92 | Pushing an item with lists in order into the found folder and re-sorting keeps the tree in order. |
| TreeOrder.AddRootTree | src/stores/workplace.ts:77-80 | Pushing an item with lists in order at the top level and re-sorting keeps the tree in order. |
| TreeOrder.PlacedUnder | src/components/sidebar/FileTree.ts:168-188 | When each child's path is its folder's path, a separator and one segment, everything below a folder lies below its path. |
| TreeOrder.FoundPlaced | src/components/sidebar/FileTree.ts:168-188 | The children of a folder found in a tree whose paths follow its shape are placed below the folder's path. |
| TreeOrder.PutLeavesOneList | src/components/sidebar/FileTree.ts:105-111 | Replacing the found item by one of the same kind with lists in order leaves at most the list that holds it out of order. |
| TreeOrder.ResortFixes | src/components/sidebar/FileTree.ts:126-137 | When only one folder's children are out of order, re-sorting them puts the tree back in order and keeps the keys of every list. |
| SidebarTree.LoadFiles | src/components/sidebar/FileTree.ts:31-33 | The tree is the files sorted, as a permutation. |
| SidebarTree.AddItem | src/components/sidebar/FileTree.ts:58-73 | With no parent path the item joins the sorted top level. With a folder at the parent path it joins that folder and adds exactly its own subtree. Otherwise nothing happens. A tree in order stays in order when the item's own lists are in order. |
| SidebarTree.AddItemPlaces | src/components/sidebar/FileTree.ts:58-73 | The item ends up at the top level, or among the children of the folder at the parent path. |
| SidebarTree.AddItemKeepsUnique | src/components/sidebar/FileTree.ts:58-73 | An item with a new path and no children keeps paths unique. |
| SidebarTree.RemoveIn | src/components/sidebar/FileTree.ts:77-96 | The removed item has the path. When every list below was in order, every list below the remainder is in order, the re-sorted folder included. |
| SidebarTree.RemoveInCount | src/components/sidebar/FileTree.ts:77-96 | `remove` succeeds exactly when the path is reachable. It takes away the removed item's subtree and nothing else. |
| SidebarTree.RemoveItem | src/components/sidebar/FileTree.ts:76-102 | The top level is sorted, and a tree in order stays in order at every level. It reports success exactly when the search finds the path. A failed removal only re-sorts the top level. |
| SidebarTree.RemoveItemTakesSubtree | src/components/sidebar/FileTree.ts:76-102 | The removed item has the path, and exactly its subtree is gone. With unique paths, the path is absent afterwards. |
| SidebarTree.Resort | src/components/sidebar/FileTree.ts:126-137 | The final re-sort changes no count. |
| SidebarTree.RenamePathsAsWritten | src/components/sidebar/FileTree.ts:113-124 | Every path below the folder has the first occurrence of the old name replaced by the new one. Shape, names, kinds and expanded flags are kept. |
| SidebarTree.RelabelledTree | src/components/sidebar/FileTree.ts:113-124 | Rewriting paths without touching names or kinds keeps every list in order. |
| SidebarTree.RenamedAsWritten | src/components/sidebar/FileTree.ts:107-124 | The renamed item has the new name, its path with the first occurrence of the old name replaced, and the same replacement in every path below it. Its kind and flag are kept. |
| SidebarTree.RenameItemAsWritten | src/components/sidebar/FileTree.ts:105-140 | As written, the rename succeeds exactly when the search finds the old path, and a miss changes nothing. On success the found item's subtree of paths is swapped for the renamed item's, and no other count changes. |
| SidebarTree.RenameAsWrittenRewritesParent | src/components/sidebar/FileTree.ts:109-123 | Renaming file `docs/d` to `e` gives the path `eocs/d`. `docs/e` is not found afterwards. |
| SidebarTree.RenameAsWrittenUnsorts | src/components/sidebar/FileTree.ts:109-137 | Renaming `docs/d` to `z` among `docs/a` and `docs/f` turns a tree in order into one whose folder holds `a`, `z`, `f`. |
| SidebarTree.Reroot | src/components/sidebar/FileTree.ts:113-124 | A path below the old prefix moves below the new one. Shape, names, kinds and expanded flags are kept. |
| SidebarTree.RerootBack | src/components/sidebar/FileTree.ts:114-124 | Moving a subtree's paths to a new prefix and back restores them. |
| SidebarTree.RenamedNode | src/components/sidebar/FileTree.ts:107-124 | The corrected renamed item has the new name as the last segment of a path under the same parent, and every path below it moved from the old path to the new one. Its kind and flag are kept. |
| SidebarTree.RenameFinds | src/components/sidebar/FileTree.ts:105-137 | When nothing was at the new path and a folder's paths all lay below its old path, the search finds the renamed item at its new path after the edit and the re-sort. |
| SidebarTree.RenameItem | src/components/sidebar/FileTree.ts:105-140 | The corrected rename succeeds exactly when the search finds the old path, and a miss changes nothing. On success the found item's subtree of paths is swapped for the renamed item's. When nothing was at the new path, the search finds the renamed item there. |
| SidebarTree.RenameKeepsParent | src/components/sidebar/FileTree.ts:105-124 | The renamed item keeps its parent path and ends in the new name. A folder's subtree moves with it, and can be moved back. When nothing was at the new path, the search finds the renamed item there in the result tree. |
| SidebarTree.RenameKeepsOrder | src/components/sidebar/FileTree.ts:105-137 | In a tree in order with unique paths that follow its shape, the corrected rename to a name without a separator keeps every list in order. |
| SidebarTree.CreateFolderStructure | src/components/sidebar/FileTree.ts:168-188 | Building the folders of a path keeps a tree in order. |
| SidebarTree.CreateFromFacts | src/components/sidebar/FileTree.ts:168-188 | Building folders adds no file and removes nothing, and keeps paths unique. When no prefix is a file, it leaves a folder at every prefix. |
| SidebarTree.CreateFolderStructureFacts | src/components/sidebar/FileTree.ts:168-188 | For a whole path: the folder exists afterwards unless some prefix of it is a file. |
| SidebarTree.AddFileToPath | src/components/sidebar/FileTree.ts:191-215 | Adding a file whose own lists are in order keeps a tree in order. |
| SidebarTree.AddFileToPathPlaces | src/components/sidebar/FileTree.ts:191-215 | The file lands at the top level or in the folder at the path's parent, is added exactly once, and no other file appears. |
| TreeStore.Push | src/stores/workplace.ts:63-65 | A push succeeds exactly when there is a list to push onto, and keeps a tree in order. |
| TreeStore.NextPlace | src/stores/workplace.ts:66-68 | After a found item the loop continues in that item's children, whether it is a folder or a file that carries children. Only a file without children leaves no list. |
| TreeStore.PushUnreached | src/stores/workplace.ts:63-65 | A push onto a list the search does not reach, such as a file's children, changes no count. |
| TreeStore.CreateFolderStructure | src/stores/workplace.ts:46-71 | Building the folders of a path keeps a tree in order, even when it throws. |
| TreeStore.FileParentBuilds | src/stores/workplace.ts:51-69 | Building `a/b` below a file `a` that holds `a/x` puts the new folder `a/b` into `a`'s children, before `a/x`, and runs to the end. |
| TreeStore.BuildCounts | src/stores/workplace.ts:46-71 | From any starting list, the store's folder loop adds only empty folders at prefixes of the path, even when it throws. No file appears, nothing disappears, deeper paths are untouched, and paths stay unique. |
| TreeStore.BuildReaches | src/stores/workplace.ts:46-71 | When no remaining prefix is a file, the folder loop runs to the end and leaves a folder at every prefix. |
| TreeStore.CreateFacts | src/stores/fileTree.ts:44-69 | The same, for a whole folder path. |
| TreeStore.AddItem | src/stores/workplace.ts:73-94 | A path already present is ignored and leaves the tree unchanged, and only such a path is. A tree in order stays in order when the item's own lists are in order. |
| TreeStore.FileParentDrops | src/stores/workplace.ts:73-94 | An item at `a/b/c` below a file `a` that carries children is dropped, without a throw, after `a/b` is built inside `a`'s list. |
| TreeStore.AddItemFacts | src/stores/fileTree.ts:71-92 | Adding removes nothing, adds no file but the item, and keeps paths unique. An added or already present path is found afterwards. |
| TreeStore.AddItemPlaces | src/stores/workplace.ts:73-94 | A new item lands at the top level or in the folder at its parent path. It is always added when no prefix of the parent path is a file. |
| TreeStore.RemoveFileFromTree | src/stores/workplace.ts:182-196 | The removed item has the item's path, and nothing is removed only when the tree is unchanged. Something is removed exactly when the item's path is among the top-level items (no parent path) or among the children of the item found at the parent path, whatever that item's kind. |
| TreeStore.FileParentRemoves | src/stores/workplace.ts:189-194 | A file that carries children loses the named child, as a folder would. |
| TreeStore.RemoveKeepsOrder | src/stores/workplace.ts:182-196 | A removal keeps a tree in order. |
| TreeStore.RemoveFacts | src/stores/workplace.ts:182-196 | A removal from the top level or from a folder takes exactly the removed item's subtree, and with unique paths the path is absent afterwards. A removal from a file's children changes no count, because search does not descend into files. Paths stay unique either way. |
| TreeStore.AddThenRemove | src/stores/workplace.ts:73-94 | Removing a file just added under an existing parent removes that very file and restores every count. |
| TreeStore.EntryName | src/stores/workplace.ts:204 | The entry's name is the path's last segment, or "unknown" when that is empty. It is never empty. |
| TreeStore.RobotPath | src/stores/workplace.ts:213-216 | The path starts with the robot's folder. A path already below it is kept, and any other path is appended after it. |
| TreeStore.EntryFile | src/stores/fileTree.ts:126-137 | The file an entry becomes: a nonempty name, and the path below the robot's folder or the entry's own path. |
| TreeStore.EntryStep | src/stores/workplace.ts:203-226 | An entry is skipped exactly when it has no bytes, and then nothing changes. An added or already present entry is found afterwards. |
| TreeStore.FoldOutcomes | src/stores/fileTree.ts:126-139 | The loop gives one outcome per entry, up to the first throw, which ends it. |
| TreeStore.FoldFinds | src/stores/fileTree.ts:126-139 | Every entry reported added or already present is in the final tree. |
| TreeStore.AddEntries | src/stores/workplace.ts:199-230 | Archive loading skips exactly the empty entries, stops at a throw, removes nothing and keeps paths unique. |
| TreeStore.FileParentArchiveContinues | src/stores/workplace.ts:199-230 | The loop goes on past an entry dropped below a file that carries children: `a/b/c` is dropped and the next entry `d` is added. |
| TreeStore.AddEntriesFound | src/stores/workplace.ts:199-230 | After loading, every entry reported added or already present is found at its path. |
| Notifications.Duration | src/stores/notification.ts:19 | A missing or zero duration becomes 10000, and any other value is kept. |
| Notifications.FindIndex | src/stores/notification.ts:31 | The first position holding the id, and -1 when none does. |
| Notifications.Remove | src/stores/notification.ts:30-35 | It removes the first notification with the id and keeps the others in order. An unknown id changes nothing. |
| Notifications.RemoveKeepsOthers | src/stores/notification.ts:30-35 | Notifications with other ids stay, and none is introduced. |
| Notifications.Expire | src/stores/notification.ts:25-27 | When the timer fires, every notification with another id stays, and none is added. |
| Notifications.AddNotification | src/stores/notification.ts:14-28 | It appends exactly one notification with the clock reading as id and the defaulted duration, and arms a timer for that id and duration. |
| Notifications.ShowSuccess | src/stores/notification.ts:37-39 | It appends one success notification with the message. |
| Notifications.ShowError | src/stores/notification.ts:41-43 | It appends one error notification with the message. |
| Notifications.AddThenExpire | src/stores/notification.ts:14-35 | With a fresh clock reading, the timer removes exactly the notification it was armed for. |
| Notifications.ExpireTakesEarlierTwin | src/stores/notification.ts:15-35 | As written, a reading already used makes the new timer remove the earlier notification instead. |
| Notifications.SameMillisecondCounterexample | src/stores/notification.ts:15-35 | Two errors in the same millisecond: the 2000 ms timer removes the 10000 ms error and leaves its own. |
| Notifications.AddFresh | src/stores/notification.ts:14-28 | With a counter for ids, the ids stay distinct and below the counter. |
| Notifications.RemoveFresh | src/stores/notification.ts:30-35 | With distinct ids, removal leaves no notification with that id. |
| Notifications.FreshTimerRemovesOwn | src/stores/notification.ts:14-35 | With counter ids, a timer removes exactly its own notification, whatever else is present. |
| ConsoleStore.Write | src/stores/console.ts:8-10 | A write replaces the last message, with the counter incremented first. |
| ConsoleStore.WriteAllIds | src/stores/console.ts:5-10 | The k-th write gets the id after the k before it, and only the last message is kept. |
| ConsoleStore.FreshIdsIncrease | src/stores/console.ts:6-9 | From a fresh store the first id is 1, and ids strictly increase. |

## Left out

- I/O, timers and workers are inputs.
  - `postMessage`, `Atomics.wait`/`store` and the structured clone: a failed
    post, a wait result and the arriving replies are parameters.
  - The `setTimeout` retry loop of `waitForWorkerReady`.
  - The notification timer: it is returned as a value, and its firing is
    `Expire`.
- WebAssembly and protobuf are foreign calls, taken as parameters.
  - Instantiation (`loadWasm`, `init`, `start`).
  - The protobuf encoding of `HostResult`.
  - The guest allocator `wasm_new_bytes`.
  - The host handlers `FuncTable.runTargetAction`, `getActuatorInfo`,
    `getJointInfo` and `consoleWrite`, which `host_func.ts` dispatches to but
    `func_table.ts` does not define.
- Decoding and parsing are foreign.
  - `TextDecoder`'s UTF-8: names stay bytes.
  - `JSON.parse`: a decoder parameter.
  - `unzipSync`: an archive is a sequence of entries.
- Floating point is not modelled.
  - Controls and positions are reals, so `Float32Array` rounding and NaN are
    left out.
  - A NaN duration, which `||` also replaces by 10000, is left out.
- Rendering and file sync are left out: `getThreeJSRenderableBodies`,
  `updateThreeJSBodies`, `getTimestep` and `writeFilesToMuJoCoFS`.
- Fetching and the robot map are left out: `addRobot`, `loadDefaultRobot`,
  `getRobotById`, `getRobotPath` and `fetchRobotUrl`.
- `size`, `modified` and `content` of a file item are left out. No operation
  reads them.
- `localeCompare` is modelled as code-unit lexicographic order, a total order.
  Locale collation is foreign.
- The sort is a stable insertion sort. `Array.prototype.sort` is stable since
  ES2019, so only the final order matters.
- Aliasing of the `selectedFile` reference is left out. `SelectFile` returns
  the item found, while later edits to the tree do not show through the stored
  selection.
- A folder whose `children` field is absent is modelled as a folder with an
  empty list. Every folder the code creates has `children: []`, and the
  search and listings only descend into folders.
- TreeStore.BuildFrom: a file whose `children` list is present but empty is
  taken as having none, so a later push throws where the code would push into
  the empty array. The archive's files carry no list, so this is the usual
  case. Folders that later rounds push below a folder built inside a file's
  list are not recorded, because the model names lists by path and the search
  never reaches them.
- TreeStore.AddEntries: for the same reason, an entry below a file with an
  empty `children` array ends the loop with `Threw`, where the code would drop
  it and go on. A file that carries children is modelled as the code runs it.
- `data: null` is modelled by `NullData`, on which property reads throw as
  they do on absent data. Any other `data` without the expected fields is
  `OtherData`: its fields read as `undefined` without a throw.
- Archive entries come in `Object.entries` order, taken as the given sequence.
- `String.prototype.replace` patterns with `$` substitutions are left out.
  Names are taken literally.
- `Date.now().toString()` is modelled by the numeric reading. Distinct readings
  give distinct strings.
- KernelWorker.Handle — the kernel call's result is a parameter. The
  `WeiruiKernel` class (src/lib/weirui_kernel/host_func.ts:7-120) has no
  `getJointPos` or `setActuatorControls` method. So, as written, both calls
  throw a TypeError once a kernel is stored, and the worker posts a failure.
  That is the `CallThrew` case of the parameter.
- SidebarTree.RenameKeepsOrder: holds only for trees whose paths follow their
  shape (`Placed`), with unique paths and a new name without a separator. The
  model does not show that the other edits keep paths placed.
- SidebarTree.RenameItem: finds the renamed item at its new path only when
  nothing was there before and a folder's paths all lay below its old path
  (`FreeToRename`).
- MujocoInstance.SetActuatorControl: indices are integers. A JavaScript
  index such as 1.5 passes the range check, the typed-array write is then
  ignored, and the call still returns true. That case is not modelled.
- TreeStore.RemoveFacts: for a removal from a file's children it states only
  that counts and uniqueness are unchanged. Search and counts do not descend
  into a file, so nothing more is observable through them.
- TreeStore.AddEntriesFound: states only that entries reported added or
  duplicate are found at the end. It does not state which folder they sit in.

## Findings

| source | as written | input that shows it | evidently intended | confidence | as-written member | corrected member |
|---|---|---|---|---|---|---|
| src/lib/weirui_kernel/host_func.ts:90-96 | The bounds check is `ptr + len > byteLength` on signed `i32` values. | `ptr = -1, len = 1`, or `ptr = 2, len = -1`: the check passes and `slice` returns no bytes. | Negative pointers and lengths are out of bounds, and an accepted request is exactly `len` bytes. | medium; not executed | HostFunc.NegativePointerBypassesBoundsCheck | HostFunc.RunHostFuncChecked |
| src/components/sidebar/FileTree.ts:109-123 | The new path is `path.replace(oldName, newName)`, which replaces the first occurrence anywhere in the path. | Renaming `docs/d` to `e` gives `eocs/d`. | The item keeps its parent path and its last segment becomes the new name. | high; not executed | SidebarTree.RenameAsWrittenRewritesParent | SidebarTree.RenameKeepsParent |
| src/components/sidebar/FileTree.ts:126-137 | The re-sort after a rename sorts the children of the folder at the parent of the rewritten path. | Renaming `docs/d` to `z` among `docs/a` and `docs/f` gives `zocs/d`. No folder `zocs` exists, so `docs` keeps `a`, `z`, `f` out of order. | The list that holds the renamed item is re-sorted. | high; not executed | SidebarTree.RenameAsWrittenUnsorts | SidebarTree.RenameKeepsOrder |
| src/stores/notification.ts:15-35 | The id is `Date.now().toString()`, and the timer removes the first notification with that id. | Two `showError` calls in the same millisecond, the second with duration 2000: its timer removes the first notification. | Each timer removes its own notification. | medium; not executed | Notifications.SameMillisecondCounterexample | Notifications.FreshTimerRemovesOwn |
