/**
 * The operating system as the volume manager sees it. The state it changes is a
 * value (`State`): the table, the mount points currently mounted, the device
 * nodes, the two dual-boot globals, the two format overrides and a log of the
 * external actions taken. What the kernel, the shell, the MTD driver, the ext4
 * builder and `format_unknown_device` answer is an oracle (`Os`).
 */
module Platform {
  import opened Wrappers
  import opened Volumes

  /** A complete `try_mount` request: device, mount point, fs_type, options. */
  datatype Attempt = Attempt(device: string, mountPoint: string, fsType: string, options: Option<string>)

  /** The external actions the volume manager takes, in the order it takes them. */
  datatype Event =
    | MountAttempt(attempt: Attempt)                // mount(2), or `mount -t .. -o ..` when options are set
    | MtdMount(partition: string, mountPoint: string)
    | GenericMount(mountPoint: string)              // `mount <mount point>`
    | BindMount(source: string, mountPoint: string) // `mount -o bind <source> <mount point>`
    | Unmounted(mountPoint: string)                 // unmount_mounted_volume
    | DataMediaLink(mountPoint: string)             // rmdir, mkdir /data/media, symlink
    | MakeNode(path: string, stat: Stat)            // mknod after a successful unlink
    | MtdErase(partition: string)
    | BuildExt4(device: Option<string>, length: int, path: string)
    | FormatUnknown(device: Option<string>, path: string, fsType: Option<string>)

  /** What the outside world answers; every status is 0 on success. */
  datatype Os = Os(
    trueDualboot: bool,                                   // isTrueDualbootEnabled()
    scanOk: bool,                                         // scan_mounted_volumes() >= 0
    mountStatus: Attempt -> int,
    mtdPartitions: set<string>,                           // names mtd_find_partition_by_name finds
    mtdMountStatus: (string, string) -> int,
    genericMountStatus: string -> int,
    bindStatus: (string, string) -> int,
    umountStatus: string -> int,
    mknodOk: (string, Stat) -> bool,
    mtdWriteOpenOk: string -> bool,
    mtdEraseOk: string -> bool,
    mtdCloseOk: string -> bool,
    ext4Status: (Option<string>, int, string) -> int,     // make_ext4fs(device, length, path)
    formatUnknownStatus: (Option<string>, string, Option<string>) -> int)

  /** The process-wide and OS state the operations read and change. */
  datatype State = State(
    volumes: seq<Volume>,
    mounted: multiset<string>,
    nodes: map<string, Stat>,
    mode: int,               // selected_dualsystem_mode
    lastSubfolder: int,      // lastDataSubfolder
    handleDataMedia: int,    // handle_data_media
    handleTrueDual: int,     // handle_truedualsystem
    log: seq<Event>)

  /** A new state with the C return value of the operation that produced it. */
  datatype Outcome = Outcome(state: State, ret: int)

  /** What none of the mount operations change: the table, the globals but lastSubfolder, and the nodes. */
  predicate SameConfig(s: State, t: State) {
    t.volumes == s.volumes && t.mode == s.mode && t.nodes == s.nodes &&
    t.handleDataMedia == s.handleDataMedia && t.handleTrueDual == s.handleTrueDual
  }

  /** `s` with one more event logged. */
  function Log(s: State, e: Event): (t: State)
    ensures t.log == s.log + [e]
    ensures t.volumes == s.volumes && t.mounted == s.mounted && t.nodes == s.nodes
    ensures t.mode == s.mode && t.lastSubfolder == s.lastSubfolder
    ensures t.handleDataMedia == s.handleDataMedia && t.handleTrueDual == s.handleTrueDual
  {
    s.(log := s.log + [e])
  }

  /** One more mount at `mountPoint` when `status` is 0. */
  function MountedIf(mounted: multiset<string>, mountPoint: string, status: int): multiset<string>
  {
    if status == 0 then mounted + multiset{mountPoint} else mounted
  }

  /** One mount fewer at `mountPoint` when `status` is 0. */
  function UnmountedIf(mounted: multiset<string>, mountPoint: string, status: int): (r: multiset<string>)
    ensures r <= mounted
    ensures forall p :: p != mountPoint ==> r[p] == mounted[p]
  {
    if status == 0 then mounted - multiset{mountPoint} else mounted
  }
}
