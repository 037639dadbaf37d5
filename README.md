# Volume manager of a dual-boot Android recovery, in Dafny

This project models `roots.c`, the volume manager of a recovery image for
dual-system Android devices. The volume manager:

- reads the recovery fstab into a table of volumes and heads it with a `/tmp` ramdisk entry;
- on a dual-system device, moves the physical `/data` node aside and adds a synthetic `/data1` entry;
- resolves paths to volumes;
- mounts volumes, including the four-way `(device, fs_type, options)` fallback and the true-dual-boot bind protocol, which binds `userdata0` or `userdata1` under the data root onto `/data` or `/data1`;
- unmounts and formats them, with their protected paths;
- switches the active system by rewriting the generic device nodes from per-image stat snapshots.

The model has two layers.

- **Specification functions** (modules `Volumes`, `Fstab`, `Roots`) describe each operation as a function:
  - Each one maps a `Platform.State` to an `Outcome` holding the new state and the C return value.
  - The state holds the table, the mounted mount points as a multiset (bind mounts stack), the device nodes, the globals `selected_dualsystem_mode` and `lastDataSubfolder`, the two format overrides, and a log of external actions in order.
  - Everything the kernel, the shell, the MTD driver, `make_ext4fs` and `format_unknown_device` answer comes from an oracle value `Platform.Os`.
- **`Session.RecoverySession`** is a class with the same fields:
  - Its methods run the C control flow step by step. The table scans and the option parser are loops.
  - Each method is proved to leave the object in the state that the specification function gives, and to return the same value.
  - The lemma modules (`CStringLemmas`, `FstabLemmas`, `RootsLemmas`) prove what the source promises about those functions.

## Model

| member | source | states |
|---|---|---|
| CStrings.CStr | roots.c:111-113 | the C string in an `fgets` buffer is the longest NUL-free prefix, ending at the first NUL |
| CStrings.SkipSpace | roots.c:112 | the line after the `isspace` skip loop: a suffix whose first character is not white space |
| CStrings.Tokens | roots.c:119-125 | the successive `strtok` results are non-empty and delimiter-free, and there are none exactly when the text is all delimiters |
| CStrings.StrToLL | roots.c:67 | `strtoll` base 10 saturates: the result is always within the `long long` range |
| CStringLemmas.StrToLLDecimal | roots.c:66-67 | `strtoll` reads back a decimal `length=` value, and a negated one; outside the range it saturates at LLONG_MAX / LLONG_MIN |
| CStringLemmas.StrToLLSkipsSpace | roots.c:67 | leading white space never changes the value `strtoll` reads |
| CStringLemmas.TokensOfJoin | roots.c:63-64 | `strtok` splits delimiter-joined tokens back into exactly those tokens, in order |
| CStringLemmas.TokensOfRuns | roots.c:119-125 | `strtok` splits tokens separated by any non-empty runs of delimiters back into exactly those tokens, in order |
| CStringLemmas.TokensSnocDelim | roots.c:119-125 | a trailing delimiter, such as the newline `fgets` keeps, adds no token |
| Volumes.DupeString | roots.c:48-60 | NULL and the text "NULL" both become NULL; any other string is copied unchanged |
| Volumes.IsNull | roots.c:48-54 | (definition) NULL, or the literal text "NULL" |
| Volumes.VolumeForPath | roots.c:213-224 | the result is the first entry in table order whose mount point is a prefix of the path ending at '/' or at the end; NULL exactly when no entry matches |
| Volumes.ApplyOption | roots.c:65-81 | an option is accepted exactly when its key is one of length=, fstype2=, fs_options=, fs_options2=, lun= |
| Volumes.ApplyOptions | roots.c:62-84 | an option list is accepted exactly when every option has a known key; an accepted list never changes the mount point, the devices or the stat snapshot |
| Volumes.IsDualsystem | roots.c:334-342 | (definition) some entry's mount point is /system1 |
| Volumes.IsDataMedia | roots.c:344-352 | (definition) some entry's fs_type is datamedia |
| Volumes.IsDataMediaVolumePath | roots.c:367-370 | (definition) the volume the path resolves to has fs_type datamedia; the path must resolve, as the source dereferences the result |
| Volumes.Selection | roots.c:270-290 | exactly the four selectors are supported, and each role gets image SYSTEM0 or SYSTEM1 |
| Volumes.DataSubfolders | roots.c:426-451 | the subfolder table is defined exactly for -1 and the four selectors |
| Fstab.RenameNode | roots.c:143-148 | `rename` moves an existing node with its snapshot to the new name; nothing else changes, and a missing source changes nothing |
| Fstab.SplitLine | roots.c:111-132 | an entry's mount point, fs_type and device are `strtok` tokens; a device2 is a token starting with '/'; an option list read in fourth place does not start with '/' |
| Fstab.LoadFields | roots.c:132-193 | one line's step keeps the table as a prefix and adds at most two entries; a skipped or malformed line changes nothing |
| Fstab.LoadLines | roots.c:110-196 | the loader loop only appends to the table |
| Fstab.LoadVolumeTable | roots.c:86-197 | entry 0 is always the /tmp ramdisk with no device; with no fstab it is the whole table and no node is touched |
| FstabLemmas.SplitJoinedLine | roots.c:119-132 | a line with fewer than three fields is malformed; otherwise the first three fields are mount point, fs_type and device; a fourth field is device2 exactly when it starts with '/' (then the fifth is the option list) and the option list otherwise |
| FstabLemmas.SplitLineOfJoin | roots.c:111-130 | splitting a line written from fields gives exactly the line those fields stand for, by an independent reading rule on the fields |
| FstabLemmas.SplitLineOfRuns | roots.c:111-130 | fields separated by any non-empty runs of blanks, tabs or newlines read as the line those fields stand for, the same as single-spaced fields |
| FstabLemmas.SplitNewlineTerminated | roots.c:110-125 | the newline `fgets` leaves at the end of a line changes nothing in how the line is read |
| FstabLemmas.BlankOrCommentSkipped | roots.c:111-113 | blank lines, and lines whose first non-blank character is '#', are skipped |
| FstabLemmas.IgnoredLineAddsNothing | roots.c:110-196 | deleting a skipped or malformed line from the fstab leaves the loaded table and nodes the same |
| FstabLemmas.LoadLinesAppend | roots.c:110 | loading two runs of lines is loading the first and then the second |
| FstabLemmas.OptionFrame | roots.c:66-77 | each key changes only its own field and sets it to the value after the key (`length=` to the `strtoll` of it); `fstype2=` makes its value the primary fs_type and demotes the old fs_type to fs_type2 |
| FstabLemmas.UnknownOptionDropsLine | roots.c:172-175 | a line with an unrecognised option key adds no entry |
| FstabLemmas.IsDualsystemSnoc | roots.c:334-342 | appending an entry makes the table dual-system exactly when it already was or the entry is /system1 |
| FstabLemmas.DataLineOnDualTable | roots.c:138-193 | a /data line accepted after /system1 moves the node to /dev/userdata_moved with its snapshot, uses the moved node as its device, and is followed immediately by the /data1 bind entry |
| FstabLemmas.DataLineOnSingleTable | roots.c:138-193 | a /data line accepted before any /system1 adds one entry on its own device and moves no node |
| FstabLemmas.OtherLineAddsOneEntry | roots.c:132-197 | any line other than /data touches no node and adds at most its own entry; an entry line adds one exactly when every option key is known, and the entry keeps the line's mount point, device, device2 and the device's snapshot |
| Roots.DataNum | roots.c:412-416 | 0 exactly for "/data", 1 exactly for "/data1", else -1 |
| Roots.TryMount | roots.c:226-243 | only a successful mount adds the mount point; the log gains only mount attempts; the table and globals are untouched |
| Roots.Fallback | roots.c:509-521 | the four attempts add the mount point only on success and log only mount attempts |
| Roots.MountByType | roots.c:498-527 | ext4/ext3/rfs/vfat go through the four-way fallback; yaffs2 without a known MTD partition returns -1 and changes nothing, and with one logs one MTD mount and returns its status; any other fs_type logs one `mount` call and returns its status; the mount point is added only on success |
| Roots.SetupDataMedia | roots.c:354-365 | with a datamedia volume, the link is made for the first datamedia volume in table order and nothing else happens; with none, nothing happens |
| Roots.FirstDataMediaFrom | roots.c:356-358 | the index found is a datamedia entry with none before it from the start index; none means no datamedia entry there |
| Roots.UmountPoint | roots.c:564-579 | the unmount is logged; a success removes one mount of that mount point, a failure none, and no other mount point is touched |
| Roots.Unmount | roots.c:533-580 | unmounting never changes the table, the mode, the nodes or lastDataSubfolder; it only unmounts and it never adds a mount (each branch's result is stated by `UnmountDataProtected`, `UnmountDataRootProtected`, `UnmountUnresolvedOrScanFail`, `UnmountDataMediaPath`, `UnmountRamdiskRefused`, `UnmountCoUnmountsDataRoot`, `UnmountAbsentSucceeds` and `UnmountOrdinary` in `RootsLemmas`) |
| Roots.UnmountScanned | roots.c:563-579 | the data-root rule and the scan lookup only unmount |
| Roots.MountAt | roots.c:381-531 | mounting never changes the table, the mode, the nodes or the overrides, and only extends the log (each branch's result is stated by `MountUnresolvedOrScanFail`, `MountDataMediaPath`, `MountRamdiskNoop`, `MountEntersBind`, `MountAlreadyMountedNoop` and `MountDispatch` in `RootsLemmas`) |
| Roots.BindData | roots.c:418-487 | the bind protocol never changes the table, the mode, the nodes or the overrides, and only extends the log |
| Roots.BindSubfolder | roots.c:426-486 | once the data root is mounted, the bind step never changes the table, the mode, the nodes or the overrides, and only extends the log |
| Roots.Wanted | roots.c:474-477 | the subfolder picked for a data path is SYSTEM0 or SYSTEM1 |
| Roots.FormatUnknownDevice | extendedcommands.h:43 | delegating a format records the call with its three arguments and nothing else |
| Roots.EraseMtd | roots.c:623-644 | the MTD branch returns 0 or -1, and 0 exactly when the partition is known and the open, the erase and the close all succeed; a missing partition or a failed open logs nothing; once opened, exactly one erase is logged |
| Roots.Format | roots.c:585-660 | formatting never changes the table, the mode, the nodes or lastDataSubfolder, and only extends the log (each branch's result is stated by `FormatUnresolved`, `FormatDataMediaDelegated`, `FormatProtectedDataDelegated`, `FormatRamdiskRefused`, `FormatSubPathDelegated` and `FormatWholeVolume` in `RootsLemmas`) |
| Roots.FormatWhole | roots.c:618-659 | formatting a whole volume never changes the table, the mode, the nodes or lastDataSubfolder, and only extends the log |
| Roots.ReplaceDeviceNode | roots.c:245-265 | the result is 0 or -1; the table and the globals are untouched |
| Roots.HandleVolumeRequest | roots.c:267-303 | the result is 0 or -1; the table and the globals are untouched |
| Roots.PairsDone | roots.c:318-322 | the three pair requests leave the table, the mode and lastDataSubfolder alone |
| Roots.SetActiveSystem | roots.c:310-332 | the result is 0 or -1, and the mode becomes `num` exactly when it is 0 and stays otherwise |
| RootsLemmas.TryMountStep | roots.c:226-243 | a request with a NULL device or fs_type returns -1 with no mount call; otherwise exactly one call is made and its status returned |
| RootsLemmas.FallbackUnrolled | roots.c:513-521 | the four unrolled calls are the walk over the candidates (device, fs_type, fs_options), (device2, fs_type, fs_options), (device, fs_type2, fs_options2), (device2, fs_type2, fs_options2) |
| RootsLemmas.WalkIsReference | roots.c:513-521 | walking the candidates makes exactly the calls up to the first success and ends with the reference status |
| RootsLemmas.FinalSucceeds | roots.c:513-521 | the walk succeeds exactly when some candidate succeeds |
| RootsLemmas.FallbackIsReference | roots.c:509-521 | the fallback makes exactly the reference calls in order and stops at the first success; it returns 0 then and the last attempt's status otherwise; it succeeds exactly when some candidate does |
| RootsLemmas.MountRamdiskNoop | roots.c:397-400 | mounting a ramdisk path returns 0 and changes nothing |
| RootsLemmas.MountAlreadyMountedNoop | roots.c:489-494 | outside the bind protocol (not a data path, not a dual-system table, true dual boot off, or the data root as target), mounting onto a mounted mount point returns 0 and changes nothing |
| RootsLemmas.MountDataMediaPath | roots.c:387-396 | a datamedia path returns what mounting /data returns, and on success the state is that of the /data mount followed by linking the first datamedia volume, which is the last action |
| RootsLemmas.MountIdempotent | roots.c:381-531 | outside the bind protocol (not a data path, not a dual-system table, true dual boot off, or the data root as target), mounting again after a successful mount returns 0 and changes nothing |
| RootsLemmas.MountUnresolvedOrScanFail | roots.c:381-406 | a path no entry matches, or a failed scan of the mounted volumes for a resolved non-datamedia, non-ramdisk path, returns -1 and changes nothing |
| RootsLemmas.MountEntersBind | roots.c:408-418 | after a successful scan, a /data or /data1 request on a dual-system table with true dual boot on, aimed anywhere but the data root (the volume's own mount point when none is given), is exactly the bind protocol for that data number |
| RootsLemmas.MountDispatch | roots.c:489-527 | outside the bind protocol, after a successful scan, a target that is not mounted is mounted by the fs_type dispatch on the volume and target |
| RootsLemmas.DualDataRebinds | roots.c:454-486 | with /data mounted and bound to the wanted subfolder, mounting /data binds again and stacks a second /data mount |
| RootsLemmas.RootMountNoBind | roots.c:418-423 | the data-root request never binds, never unmounts and keeps lastDataSubfolder |
| RootsLemmas.BindInvalidModeFails | roots.c:448-451 | an unsupported mode fails the protocol before any bind and keeps lastDataSubfolder |
| RootsLemmas.BindEarlyReturn | roots.c:454-465 | when /data is mounted and nothing was bound before, the protocol returns the data root's result and binds nothing |
| RootsLemmas.BindSubfolderRule | roots.c:479-486 | lastDataSubfolder changes only through a successful bind, which is the last action, and then names the subfolder the mode picks for this path; every successful bind sets it |
| RootsLemmas.BindSubfolderRuleAfterRoot | roots.c:426-486 | after the data root is mounted, lastDataSubfolder changes only through a successful bind to the wanted subfolder, logged last; a success either changes nothing or records the wanted subfolder |
| RootsLemmas.BindSwitchOver | roots.c:454-486 | with /data bound to the other subfolder, /data is unmounted first; a failed unmount stops the protocol with -1 and no bind; otherwise the wanted subfolder is bound right after the unmount |
| RootsLemmas.SelectionTable | roots.c:270-289 | SYSTEM0 gives (0,0), SYSTEM1 gives (1,1), BOTH and -1 give (0,1), INTERCHANGED gives (1,0) |
| RootsLemmas.DataRootUnderData | roots.c:539-541 | the data root lies under the raw "/data" prefix |
| RootsLemmas.UnmountRamdiskRefused | roots.c:551-554 | outside the raw "/data" prefix, unmounting a ramdisk path returns -1 and changes nothing |
| RootsLemmas.UnmountAbsentSucceeds | roots.c:572-577 | unmounting a volume that is not mounted returns 0; outside the "/data" prefix it changes nothing |
| RootsLemmas.UnmountDataProtected | roots.c:534-537 | with a datamedia volume, any path under the raw "/data" prefix returns 0 and unmounts nothing |
| RootsLemmas.UnmountDataRootProtected | roots.c:538-541 | on a dual-system table with true dual boot on, any path under the data root returns 0 and unmounts nothing |
| RootsLemmas.UnmountCoUnmountsDataRoot | roots.c:563-579 | a "/data"-prefixed path on a dual-system table without datamedia, unless true dual boot is on and not overridden, unmounts the mounted data root first; the status is that of the volume's own unmount, or 0 when it is no longer mounted |
| RootsLemmas.UnmountOrdinary | roots.c:542-579 | outside "/data", a resolved non-ramdisk volume whose mount point is mounted is unmounted once, and the status is umount's |
| RootsLemmas.UnmountUnresolvedOrScanFail | roots.c:543-560 | with neither protection applying, a path no entry matches, or a failed scan for a resolved non-datamedia, non-ramdisk path, returns -1 and changes nothing |
| RootsLemmas.UnmountDataMediaPath | roots.c:548-550 | unmounting a datamedia path returns 0 and changes nothing |
| RootsLemmas.UnmountIdempotent | roots.c:572-579 | outside "/data", after a successful unmount of a volume mounted at most once, unmounting again returns 0 and changes nothing |
| RootsLemmas.FormatUnresolved | roots.c:586-592 | formatting a path no entry matches, /sd-ext included, returns -1 and changes nothing |
| RootsLemmas.FormatWholeVolume | roots.c:610-659 | a path that is a non-ramdisk volume's own mount point, not datamedia and not delegated under "/data", goes to the whole-volume tail: unmount, then erase, build or delegate by fs_type |
| RootsLemmas.FormatRamdiskRefused | roots.c:605-609 | outside the raw "/data" prefix, formatting a ramdisk path returns -1 and changes nothing |
| RootsLemmas.FormatDataMediaDelegated | roots.c:594-596 | a datamedia path is always delegated with no device and no fs_type, whatever the data-media override says |
| RootsLemmas.FormatProtectedDataDelegated | roots.c:597-604 | a path under the raw "/data" prefix is delegated while the override for its case is off |
| RootsLemmas.FormatSubPathDelegated | roots.c:610-616 | a path below a volume's mount point is delegated with the volume's device and no fs_type |
| RootsLemmas.FormatUnmountFailureAborts | roots.c:618-621 | a failed unmount aborts the format with -1, and nothing but unmounts was done |
| RootsLemmas.FormatNativeAfterUnmount | roots.c:618-653 | an MTD erase or an ext4 build happens only on a whole volume, right after its unmount succeeded |
| RootsLemmas.FormatWholeNative | roots.c:618-653 | in the whole-volume tail, an MTD erase or an ext4 build is logged only right after a successful unmount |
| RootsLemmas.FormatWholeDispatch | roots.c:618-659 | after a successful unmount, yaffs2 and mtd are erased through MTD, ext4 logs one `make_ext4fs` build and returns 0 exactly when it succeeds, and anything else is delegated with its fs_type |
| RootsLemmas.ReplaceDeviceNodeSuccess | roots.c:245-265 | on success the volume's device node existed and now holds the given snapshot; no other node changed |
| RootsLemmas.HandleVolumeRequestRejects | roots.c:267-302 | a missing volume or an unsupported selector returns -1 with nothing touched |
| RootsLemmas.HandleVolumeRequestWrites | roots.c:267-297 | on success both nodes existed and now hold the snapshots the selection table names for them |
| RootsLemmas.InterchangedSwaps | roots.c:283-295 | INTERCHANGED writes each member's snapshot onto the other member's node |
| RootsLemmas.ActivatorCommitRule | roots.c:318-331 | the mode is committed exactly when the final /data unmount succeeds, whatever the pairs returned; an unsupported selector replaces no node and is still committed |
| Session.ParseOptions | roots.c:62-84 | the option loop accepts exactly the lists `Volumes.ApplyOptions` accepts and yields the same volume |
| Session.RecoverySession.constructor | roots.c:305 | the globals start at mode -1, lastDataSubfolder -1, both overrides 0, with an empty table |
| Session.RecoverySession.VolumeForPath | roots.c:213-224 | the scan returns the first matching entry, or NULL when none matches |
| Session.RecoverySession.IsDualsystem | roots.c:334-342 | true exactly when some entry's mount point is /system1 |
| Session.RecoverySession.IsDataMedia | roots.c:344-352 | true exactly when some entry's fs_type is datamedia |
| Session.RecoverySession.IsDataMediaVolumePath | roots.c:367-370 | true exactly when the path's volume is datamedia |
| Session.RecoverySession.SetupDataMedia | roots.c:354-365 | the scan links the first datamedia volume, exactly as `Roots.SetupDataMedia` does |
| Session.RecoverySession.LoadVolumeTable | roots.c:86-211 | the loading loop builds the table and moves the nodes exactly as `Fstab.LoadVolumeTable` does; nothing else changes |
| Session.RecoverySession.LoadFields | roots.c:132-193 | one pass of the loop body changes the table and nodes exactly as `Fstab.LoadFields` does; nothing else changes |
| Session.RecoverySession.TryMount | roots.c:226-243 | the new state and status are exactly those `Roots.TryMount` gives |
| Session.RecoverySession.MountByType | roots.c:498-527 | the new state and status are exactly those `Roots.MountByType` gives |
| Session.RecoverySession.EnsurePathMounted | roots.c:372-374 | same as mounting at the volume's own mount point |
| Session.RecoverySession.EnsurePathMountedAtMountPoint | roots.c:381-531 | the new state and status are exactly those `Roots.MountAt` gives |
| Session.RecoverySession.BindData | roots.c:418-487 | the new state and status are exactly those `Roots.BindData` gives |
| Session.RecoverySession.BindSubfolder | roots.c:426-486 | the new state and status are exactly those `Roots.BindSubfolder` gives |
| Session.RecoverySession.UnmountMountedVolume | roots.c:564-579 | the new state and status are exactly those `Roots.UmountPoint` gives |
| Session.RecoverySession.EnsurePathUnmounted | roots.c:533-580 | the new state and status are exactly those `Roots.Unmount` gives |
| Session.RecoverySession.UnmountScanned | roots.c:563-579 | the new state and status are exactly those `Roots.UnmountScanned` gives |
| Session.RecoverySession.FormatUnknownDevice | extendedcommands.h:43 | the call is recorded and its oracle status returned |
| Session.RecoverySession.FormatVolume | roots.c:585-660 | the new state and status are exactly those `Roots.Format` gives |
| Session.RecoverySession.FormatWhole | roots.c:618-659 | the new state and status are exactly those `Roots.FormatWhole` gives |
| Session.RecoverySession.ReplaceDeviceNode | roots.c:245-265 | the new state and status are exactly those `Roots.ReplaceDeviceNode` gives |
| Session.RecoverySession.HandleVolumeRequest | roots.c:267-303 | the new state and status are exactly those `Roots.HandleVolumeRequest` gives |
| Session.RecoverySession.SetActiveSystem | roots.c:310-332 | the new state and status are exactly those `Roots.SetActiveSystem` gives |
| Session.RecoverySession.HandlePairs | roots.c:320-322 | the new state is exactly `Roots.PairsDone`, the state after the three pair requests |
| Session.RecoverySession.HandleDataMediaFormat | roots.c:662-664 | only the data-media override changes |
| Session.RecoverySession.HandleTruedualsystemFormat | roots.c:666-668 | only the true-dual-system override changes |

## Behaviour as the code has it

- `set_active_system` ignores the three pair results. It commits any `num`, even an unsupported one, whenever the final `/data` unmount succeeds (`RootsLemmas.ActivatorCommitRule`).
- Mounting `/data` on a true-dual-boot device is not idempotent. When `/data` is mounted and already bound to the wanted subfolder, the protocol binds again (`RootsLemmas.DualDataRebinds`).
- The "/data" tests in unmount and format compare a raw prefix, so they also cover `/data1`, `/datadata` and the data root.
- After the data root is unmounted, the volume's own mount point is looked up in the scanned table with that entry removed. `unmount_mounted_volume` drops an entry when its unmount succeeds.

## Left out

- readlink: symlink resolution of device paths is not modelled. Device nodes are keyed by the device path as written in the fstab.
- I/O calls: `mount`, `umount`, `__system`, the MTD calls, `make_ext4fs`, `mknod` and `format_unknown_device` are oracle answers in `Platform.Os` plus log events.
  - Each answer depends only on the request, so one request always gets the same answer.
  - `unlink`, `rename` and `stat` work on the device-node map (`Fstab.RenameNode`, `Fstab.StatOf`, the removal of an existing node) and log nothing.
- Filesystem side effects: `mkdir`, `rmdir` and the `/data/media` symlink are not modelled as files. The link is one `DataMediaLink` event, and the directories created before mounting and binding are not modelled.
- Mounted-volume scan: `scan_mounted_volumes` is a mounted multiset plus one `Os.scanOk` answer. That answer is shared by every scan inside one top-level operation, so an inner scan cannot fail once an outer one succeeded (the replace unmounts and the final /data unmount of `set_active_system`, the /data unmount nested in the bind protocol). `isTrueDualbootEnabled` is `Os.trueDualboot`.
- Buffers and allocation: the fstab is the sequence of buffers `fgets` returns, and how it splits lines longer than 1023 bytes is not modelled. `malloc`/`realloc` growth, `strdup`, the `PATH_MAX` buffers and the global `strtok` state are not modelled; the tokenizer is a function.
- Logging: the `LOGE`/`LOGI`/`LOGW` messages, `ui_should_log_stdout` and the stderr dump of the table are not modelled.
- Getters: `get_num_volumes`, `get_device_volumes`, `getDualsystemMode` and `getLastDataSubfolder` read fields of `RecoverySession` directly and have no members of their own.
- replace_device_node NULL check: the `stat == NULL` test is not modelled, because `handle_volume_request` always passes the address of a table entry's snapshot.
- roots.h: this header, which defines the dual-boot constants, is not part of this model.
  - The selectors are assumed to be 0 to 3.
  - The data root is assumed to be "/data_root" and the subfolders "/data_root/userdata0" and "/data_root/userdata1".
  - The proofs use that the selectors are distinct and differ from -1, that SYSTEM0 and SYSTEM1 are 0 and 1 (so a recorded lastDataSubfolder is non-negative), and that the data root is under "/data".
- extendedcommands.h: the header holds prototypes only; `format_unknown_device` is an oracle.
- SELinux: the `sehandle` passed to `make_ext4fs` is not modelled.
- Roots.MountAt: requires that "/data" does not resolve to a datamedia volume. On such a table the C recursion through `ensure_path_mounted("/data")` never ends. The requirement is wider than that divergence: it also excludes requests on such a table that never recurse into `ensure_path_mounted("/data")` and terminate in C.
- Roots.BindData: carries the same requirement as `Roots.MountAt`.
- Session.RecoverySession.EnsurePathMountedAtMountPoint: carries the same requirement as `Roots.MountAt`.
- Session.RecoverySession.EnsurePathMounted: carries the same requirement as `Roots.MountAt`.
- Session.RecoverySession.BindData: carries the same requirement as `Roots.MountAt`.
