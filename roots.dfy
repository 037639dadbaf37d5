/**
 * The decision logic of roots.c as functions from a `State` to an `Outcome`:
 * mounting with its shortcuts, four-way fallback and dual-boot bind protocol,
 * unmounting with its protected paths, the format dispatcher and the
 * dual-system activator. `RecoverySession` (session.dfy) runs the same steps
 * imperatively and is proved to agree with these functions.
 */
module Roots {
  import opened Wrappers
  import opened CStrings
  import opened Volumes
  import opened Platform

  /** The filesystem types mounted with the (device, fs_type, options) fallback. */
  predicate IsConventional(fsType: string) {
    fsType == "ext4" || fsType == "ext3" || fsType == "rfs" || fsType == "vfat"
  }

  /** Every event logged after `from` is a mount attempt. */
  predicate OnlyMountsAfter(log: seq<Event>, from: nat) {
    from <= |log| && forall k :: from <= k < |log| ==> log[k].MountAttempt? || log[k].MtdMount? || log[k].GenericMount?
  }

  /** Which logical data path a mount request names: 0 for /data, 1 for /data1, else -1. */
  function DataNum(path: string): (n: int)
    ensures n in {-1, 0, 1}
    ensures n == 0 <==> path == "/data"
    ensures n == 1 <==> path == "/data1"
  {
    if path == "/data" then 0 else if path == "/data1" then 1 else -1
  }

  /** `try_mount`: -1 without any call when the device or fs_type is NULL. */
  function TryMount(s: State, os: Os, device: Option<string>, mountPoint: string,
                    fsType: Option<string>, options: Option<string>): (r: Outcome)
    ensures SameConfig(s, r.state) && r.state.lastSubfolder == s.lastSubfolder
    ensures r.state.mounted == MountedIf(s.mounted, mountPoint, r.ret)
    ensures s.log <= r.state.log && OnlyMountsAfter(r.state.log, |s.log|)
  {
    if device.None? || fsType.None? then Outcome(s, -1)
    else
      var a := Attempt(device.value, mountPoint, fsType.value, options);
      var status := os.mountStatus(a);
      Outcome(Log(s, MountAttempt(a)).(mounted := MountedIf(s.mounted, mountPoint, status)), status)
  }

  /**
   * The four `try_mount` calls for ext4/ext3/rfs/vfat, in their fixed order;
   * the first success wins and otherwise the last attempt's status is returned.
   */
  function Fallback(s: State, os: Os, v: Volume, mountPoint: string): (r: Outcome)
    ensures SameConfig(s, r.state) && r.state.lastSubfolder == s.lastSubfolder
    ensures r.state.mounted == MountedIf(s.mounted, mountPoint, r.ret)
    ensures s.log <= r.state.log && OnlyMountsAfter(r.state.log, |s.log|)
  {
    var r0 := TryMount(s, os, v.device, mountPoint, Some(v.fsType), v.fsOptions);
    if r0.ret == 0 then r0
    else
      var r1 := TryMount(r0.state, os, v.device2, mountPoint, Some(v.fsType), v.fsOptions);
      if r1.ret == 0 then r1
      else
        var r2 := TryMount(r1.state, os, v.device, mountPoint, v.fsType2, v.fsOptions2);
        if r2.ret == 0 then r2
        else TryMount(r2.state, os, v.device2, mountPoint, v.fsType2, v.fsOptions2)
  }

  /** The fs_type dispatch at the end of a plain mount: MTD, the fallback, or `mount <mount point>`. */
  function MountByType(s: State, os: Os, v: Volume, mountPoint: string): (r: Outcome)
    ensures SameConfig(s, r.state) && r.state.lastSubfolder == s.lastSubfolder
    ensures r.state.mounted == MountedIf(s.mounted, mountPoint, r.ret)
    ensures s.log <= r.state.log && OnlyMountsAfter(r.state.log, |s.log|)
    ensures IsConventional(v.fsType) ==> r == Fallback(s, os, v, mountPoint)
    ensures v.fsType == "yaffs2" && (v.device.None? || v.device.value !in os.mtdPartitions) ==> r == Outcome(s, -1)
    ensures v.fsType == "yaffs2" && v.device.Some? && v.device.value in os.mtdPartitions ==>
      r.state.log == s.log + [MtdMount(v.device.value, mountPoint)] && r.ret == os.mtdMountStatus(v.device.value, mountPoint)
    ensures v.fsType != "yaffs2" && !IsConventional(v.fsType) ==>
      r.state.log == s.log + [GenericMount(mountPoint)] && r.ret == os.genericMountStatus(mountPoint)
  {
    if v.fsType == "yaffs2" then
      if v.device.Some? && v.device.value in os.mtdPartitions then
        var status := os.mtdMountStatus(v.device.value, mountPoint);
        Outcome(Log(s, MtdMount(v.device.value, mountPoint)).(mounted := MountedIf(s.mounted, mountPoint, status)), status)
      else Outcome(s, -1)
    else if IsConventional(v.fsType) then Fallback(s, os, v, mountPoint)
    else
      var status := os.genericMountStatus(mountPoint);
      Outcome(Log(s, GenericMount(mountPoint)).(mounted := MountedIf(s.mounted, mountPoint, status)), status)
  }

  /** The first datamedia entry at index `from` or later. */
  function FirstDataMediaFrom(vols: seq<Volume>, from: nat): (r: Option<nat>)
    requires from <= |vols|
    ensures r.Some? ==> from <= r.value < |vols| && vols[r.value].fsType == "datamedia"
    ensures r.Some? ==> forall j :: from <= j < r.value ==> vols[j].fsType != "datamedia"
    ensures r.None? ==> forall j :: from <= j < |vols| ==> vols[j].fsType != "datamedia"
    decreases |vols| - from
  {
    if from == |vols| then None
    else if vols[from].fsType == "datamedia" then Some(from)
    else FirstDataMediaFrom(vols, from + 1)
  }

  /** `setup_data_media`: link the first datamedia volume's mount point to /data/media. */
  function SetupDataMedia(s: State): (t: State)
    ensures SameConfig(s, t) && t.mounted == s.mounted && t.lastSubfolder == s.lastSubfolder
    ensures IsDataMedia(s.volumes) ==>
      exists i :: 0 <= i < |s.volumes| && s.volumes[i].fsType == "datamedia" &&
        (forall j :: 0 <= j < i ==> s.volumes[j].fsType != "datamedia") &&
        t.log == s.log + [DataMediaLink(s.volumes[i].mountPoint)]
    ensures !IsDataMedia(s.volumes) ==> t == s
  {
    match FirstDataMediaFrom(s.volumes, 0)
    case None => s
    case Some(i) => Log(s, DataMediaLink(s.volumes[i].mountPoint))
  }

  /** `unmount_mounted_volume` on a mount point found in the scan. */
  function UmountPoint(s: State, os: Os, mountPoint: string): (r: Outcome)
    ensures SameConfig(s, r.state) && r.state.lastSubfolder == s.lastSubfolder
    ensures r.state.log == s.log + [Unmounted(mountPoint)]
    ensures r.state.mounted == UnmountedIf(s.mounted, mountPoint, r.ret)
  {
    var status := os.umountStatus(mountPoint);
    Outcome(Log(s, Unmounted(mountPoint)).(mounted := UnmountedIf(s.mounted, mountPoint, status)), status)
  }

  /** Every event logged after `from` is an unmount. */
  predicate OnlyUnmountsAfter(log: seq<Event>, from: nat) {
    from <= |log| && forall k :: from <= k < |log| ==> log[k].Unmounted?
  }

  /**
   * `ensure_path_unmounted`. Protected paths succeed untouched: anything under
   * the raw prefix "/data" while a datamedia volume exists, and anything under
   * the data root while true dual boot is on. The ramdisk cannot be unmounted.
   * A "/data"-prefixed path on a dual-system device also unmounts the data root
   * unless true dual boot is on and not overridden.
   */
  function Unmount(s: State, os: Os, path: string): (r: Outcome)
    ensures SameConfig(s, r.state) && r.state.lastSubfolder == s.lastSubfolder
    ensures s.log <= r.state.log && OnlyUnmountsAfter(r.state.log, |s.log|)
    ensures r.state.mounted <= s.mounted
    decreases if path == "/data" then 0 else 1
  {
    if StartsWith(path, "/data") && IsDataMedia(s.volumes) then Outcome(s, 0)
    else if StartsWith(path, DataRoot) && IsDualsystem(s.volumes) && os.trueDualboot then Outcome(s, 0)
    else match VolumeForPath(s.volumes, path)
      case None => Outcome(s, -1)
      case Some(i) =>
        var v := s.volumes[i];
        if IsDataMediaVolumePath(s.volumes, path) then
          assert IsDataMedia(s.volumes) by { assert s.volumes[i].fsType == "datamedia"; }
          Unmount(s, os, "/data")
        else if v.fsType == "ramdisk" then Outcome(s, -1)
        else if !os.scanOk then Outcome(s, -1)
        else UnmountScanned(s, os, path, v.mountPoint)
  }

  /**
   * The end of `ensure_path_unmounted`, after a successful scan: the data root
   * when the "/data" rule asks for it, then the volume's own mount point if the
   * scan lists it.
   */
  function UnmountScanned(s: State, os: Os, path: string, mountPoint: string): (r: Outcome)
    ensures SameConfig(s, r.state) && r.state.lastSubfolder == s.lastSubfolder
    ensures s.log <= r.state.log && OnlyUnmountsAfter(r.state.log, |s.log|)
    ensures r.state.mounted <= s.mounted
  {
    var s1 :=
      if StartsWith(path, "/data") && IsDualsystem(s.volumes) && !(os.trueDualboot && s.handleTrueDual == 0)
         && DataRoot in s.mounted
      then UmountPoint(s, os, DataRoot).state
      else s;
    // A successful unmount drops its entry from the scanned table, so the lookup sees s1.
    if mountPoint !in s1.mounted then Outcome(s1, 0) else UmountPoint(s1, os, mountPoint)
  }

  /** Recursion measure of the mount protocol: the data root request, then /data, then the rest. */
  function MountRank(path: string, mountPoint: Option<string>): nat
  {
    if path == "/data" && mountPoint == Some(DataRoot) then 0
    else if path == "/data" && mountPoint.None? then 1
    else 2
  }

  /**
   * `ensure_path_mounted_at_mount_point` (with `mountPoint == None` it is
   * `ensure_path_mounted`). A datamedia path mounts /data and links itself; the
   * ramdisk and already-mounted mount points succeed untouched; /data and /data1
   * on a true-dual-boot device go through the bind protocol; the rest are
   * dispatched by fs_type. The requirement is wider than the divergence: on a
   * table where "/data" is itself datamedia, only the requests that recurse
   * into `ensure_path_mounted("/data")` fail to terminate in C, yet every
   * request on such a table is excluded here.
   */
  function MountAt(s: State, os: Os, path: string, mountPoint: Option<string>): (r: Outcome)
    requires !DataIsDataMedia(s.volumes)
    ensures SameConfig(s, r.state) && s.log <= r.state.log
    decreases MountRank(path, mountPoint), 1
  {
    match VolumeForPath(s.volumes, path)
    case None => Outcome(s, -1)
    case Some(i) =>
      var v := s.volumes[i];
      if IsDataMediaVolumePath(s.volumes, path) then
        var r := MountAt(s, os, "/data", None);
        if r.ret != 0 then r else Outcome(SetupDataMedia(r.state), 0)
      else if v.fsType == "ramdisk" then Outcome(s, 0)
      else if !os.scanOk then Outcome(s, -1)
      else
        var target := mountPoint.GetOr(v.mountPoint);
        var dataNum := DataNum(path);
        if dataNum >= 0 && IsDualsystem(s.volumes) && target != DataRoot && os.trueDualboot then
          BindData(s, os, path, mountPoint, target, dataNum)
        else if target in s.mounted then Outcome(s, 0)
        else MountByType(s, os, v, target)
  }

  /**
   * The dual-boot bind protocol for /data (`dataNum` 0) and /data1 (1): mount
   * the data root, pick the subfolder from the active mode, unmount /data if a
   * different subfolder was bound, and bind the subfolder onto `target`.
   */
  function BindData(s: State, os: Os, path: string, mountPoint: Option<string>, target: string, dataNum: int): (r: Outcome)
    requires !DataIsDataMedia(s.volumes)
    requires dataNum == DataNum(path) && dataNum in {0, 1}
    requires target != DataRoot && (mountPoint.Some? ==> mountPoint.value == target)
    ensures SameConfig(s, r.state) && s.log <= r.state.log
    decreases MountRank(path, mountPoint), 0
  {
    var root := MountAt(s, os, "/data", Some(DataRoot));
    if root.ret != 0 then root else BindSubfolder(root.state, os, target, dataNum)
  }

  /**
   * The bind protocol once the data root is mounted: pick the subfolder the
   * mode wants for `dataNum`; if /data is mounted and nothing was bound before,
   * stop; if another subfolder is bound, unmount /data first; then bind.
   */
  function BindSubfolder(s: State, os: Os, target: string, dataNum: int): (r: Outcome)
    ensures SameConfig(s, r.state) && s.log <= r.state.log
  {
    match DataSubfolders(s.mode)
    case None => Outcome(s, -1)
    case Some(sub) =>
      var want := Wanted(s.mode, dataNum);
      if "/data" in s.mounted && s.lastSubfolder < 0 then Outcome(s, 0)
      else
        var u := if "/data" in s.mounted && s.lastSubfolder != want then Unmount(s, os, "/data") else Outcome(s, 0);
        if u.ret != 0 then Outcome(u.state, -1)
        else
          var source := SubfolderPath(want);
          var status := os.bindStatus(source, target);
          var s2 := Log(u.state, BindMount(source, target));
          if status != 0 then Outcome(s2, status)
          else Outcome(s2.(mounted := s2.mounted + multiset{target}, lastSubfolder := want), 0)
  }

  function Wanted(mode: int, dataNum: int): (w: int)
    requires DataSubfolders(mode).Some?
    ensures w in {DualbootSystem0, DualbootSystem1}
  {
    var sub := DataSubfolders(mode).value;
    if dataNum == 0 then sub.0 else sub.1
  }

  /** `format_unknown_device(device, path, fs_type)`, recorded and answered by the oracle. */
  function FormatUnknownDevice(s: State, os: Os, device: Option<string>, path: string, fsType: Option<string>): (r: Outcome)
    ensures r.state == Log(s, FormatUnknown(device, path, fsType))
  {
    Outcome(Log(s, FormatUnknown(device, path, fsType)), os.formatUnknownStatus(device, path, fsType))
  }

  /** The MTD branch of `format_volume`: find, open for write, erase all blocks, close. */
  function EraseMtd(s: State, os: Os, device: Option<string>): (r: Outcome)
    ensures r.ret in {0, -1}
    ensures r.ret == 0 ==> device.Some? && r.state.log == s.log + [MtdErase(device.value)]
    ensures r.state == s || (device.Some? && r.state == Log(s, MtdErase(device.value)))
    ensures r.ret == 0 <==>
      device.Some? && device.value in os.mtdPartitions && os.mtdWriteOpenOk(device.value) &&
      os.mtdEraseOk(device.value) && os.mtdCloseOk(device.value)
    ensures device.None? || device.value !in os.mtdPartitions || !os.mtdWriteOpenOk(device.value) ==> r.state == s
    ensures device.Some? && device.value in os.mtdPartitions && os.mtdWriteOpenOk(device.value) ==>
      r.state == Log(s, MtdErase(device.value))
  {
    if device.None? || device.value !in os.mtdPartitions then Outcome(s, -1)
    else
      var d := device.value;
      if !os.mtdWriteOpenOk(d) then Outcome(s, -1)
      else
        var s1 := Log(s, MtdErase(d));
        if !os.mtdEraseOk(d) then Outcome(s1, -1)
        else if !os.mtdCloseOk(d) then Outcome(s1, -1)
        else Outcome(s1, 0)
  }

  /** True when the raw "/data" prefix test of `format_volume` delegates `path`. */
  predicate DataFormatDelegated(s: State, os: Os, path: string) {
    StartsWith(path, "/data") &&
    ((IsDataMedia(s.volumes) && s.handleDataMedia == 0) ||
     (IsDualsystem(s.volumes) && os.trueDualboot && s.handleTrueDual == 0))
  }

  /**
   * `format_volume`: refuse unknown paths and the ramdisk; delegate datamedia
   * paths, protected /data paths and sub-paths to `format_unknown_device`;
   * otherwise unmount first and then erase the MTD partition, build ext4, or
   * delegate by fs_type.
   */
  function Format(s: State, os: Os, path: string): (r: Outcome)
    ensures SameConfig(s, r.state) && r.state.lastSubfolder == s.lastSubfolder && s.log <= r.state.log
  {
    match VolumeForPath(s.volumes, path)
    case None => Outcome(s, -1)
    case Some(i) =>
      var v := s.volumes[i];
      if IsDataMediaVolumePath(s.volumes, path) then FormatUnknownDevice(s, os, None, path, None)
      else if StartsWith(path, "/data") && IsDataMedia(s.volumes) && s.handleDataMedia == 0 then
        FormatUnknownDevice(s, os, None, path, None)
      else if StartsWith(path, "/data") && IsDualsystem(s.volumes) && os.trueDualboot && s.handleTrueDual == 0 then
        FormatUnknownDevice(s, os, None, path, None)
      else if v.fsType == "ramdisk" then Outcome(s, -1)
      else if v.mountPoint != path then FormatUnknownDevice(s, os, v.device, path, None)
      else FormatWhole(s, os, path, v)
  }

  /**
   * The end of `format_volume` for a whole volume `v` at `path`: unmount it,
   * then erase the MTD partition, build ext4, or delegate by fs_type.
   */
  function FormatWhole(s: State, os: Os, path: string, v: Volume): (r: Outcome)
    ensures SameConfig(s, r.state) && r.state.lastSubfolder == s.lastSubfolder && s.log <= r.state.log
  {
    var u := Unmount(s, os, path);
    if u.ret != 0 then Outcome(u.state, -1)
    else if v.fsType == "yaffs2" || v.fsType == "mtd" then EraseMtd(u.state, os, v.device)
    else if v.fsType == "ext4" then
      var status := os.ext4Status(v.device, v.length, path);
      Outcome(Log(u.state, BuildExt4(v.device, v.length, path)), if status != 0 then -1 else 0)
    else FormatUnknownDevice(u.state, os, v.device, path, Some(v.fsType))
  }

  /**
   * `replace_device_node`: unmount the volume, delete its device node and
   * recreate it from `stat`. A missing device or node makes the delete fail.
   */
  function ReplaceDeviceNode(s: State, os: Os, vol: nat, stat: Stat): (r: Outcome)
    requires vol < |s.volumes|
    ensures r.state.volumes == s.volumes && r.state.mode == s.mode && r.state.lastSubfolder == s.lastSubfolder
    ensures r.state.handleDataMedia == s.handleDataMedia && r.state.handleTrueDual == s.handleTrueDual
    ensures r.ret in {0, -1}
  {
    var v := s.volumes[vol];
    var u := Unmount(s, os, v.mountPoint);
    if u.ret != 0 then Outcome(u.state, -1)
    else if v.device.None? || v.device.value !in u.state.nodes then Outcome(u.state, -1)
    else
      var d := v.device.value;
      var s1 := Log(u.state.(nodes := u.state.nodes - {d}), MakeNode(d, stat));
      if !os.mknodOk(d, stat) then Outcome(s1, -1)
      else Outcome(s1.(nodes := s1.nodes[d := stat]), 0)
  }

  /** The stat snapshot of the pair member holding `image`: SYSTEM0 is `i0`, SYSTEM1 is `i1`. */
  function ImageStat(vols: seq<Volume>, i0: nat, i1: nat, image: int): Stat
    requires i0 < |vols| && i1 < |vols|
  {
    vols[if image == DualbootSystem0 then i0 else i1].stat
  }

  /**
   * `handle_volume_request`: for a pair of volumes and a selector, give each
   * generic node the snapshot the selection table names. A missing volume or an
   * unsupported selector fails before anything is touched.
   */
  function HandleVolumeRequest(s: State, os: Os, vol0: Option<nat>, vol1: Option<nat>, num: int): (r: Outcome)
    requires vol0.Some? ==> vol0.value < |s.volumes|
    requires vol1.Some? ==> vol1.value < |s.volumes|
    ensures r.state.volumes == s.volumes && r.state.mode == s.mode && r.state.lastSubfolder == s.lastSubfolder
    ensures r.state.handleDataMedia == s.handleDataMedia && r.state.handleTrueDual == s.handleTrueDual
    ensures r.ret in {0, -1}
  {
    if vol0.None? || vol1.None? then Outcome(s, -1)
    else match Selection(num)
      case None => Outcome(s, -1)
      case Some(sel) =>
        var i0, i1 := vol0.value, vol1.value;
        var stat0 := ImageStat(s.volumes, i0, i1, sel.0);
        var stat1 := ImageStat(s.volumes, i0, i1, sel.1);
        var r0 := ReplaceDeviceNode(s, os, i0, stat0);
        if r0.ret != 0 then Outcome(r0.state, -1)
        else
          var r1 := ReplaceDeviceNode(r0.state, os, i1, stat1);
          if r1.ret != 0 then Outcome(r1.state, -1) else Outcome(r1.state, 0)
  }

  /** The three node pairs `set_active_system` handles, in order. */
  function PairsDone(s: State, os: Os, num: int): (r: State)
    ensures r.volumes == s.volumes && r.mode == s.mode && r.lastSubfolder == s.lastSubfolder
    ensures r.handleDataMedia == s.handleDataMedia && r.handleTrueDual == s.handleTrueDual
  {
    var vols := s.volumes;
    var r1 := HandleVolumeRequest(s, os, VolumeForPath(vols, "/system"), VolumeForPath(vols, "/system1"), num);
    var r2 := HandleVolumeRequest(r1.state, os, VolumeForPath(vols, "/boot"), VolumeForPath(vols, "/boot1"), num);
    var r3 := HandleVolumeRequest(r2.state, os, VolumeForPath(vols, "/radio"), VolumeForPath(vols, "/radio1"), num);
    r3.state
  }

  /**
   * `set_active_system`: handle the three pairs (their results are ignored),
   * unmount /data, and commit `num` as the selected mode exactly when that
   * unmount succeeds.
   */
  function SetActiveSystem(s: State, os: Os, num: int): (r: Outcome)
    ensures r.ret in {0, -1}
    ensures r.state.mode == (if r.ret == 0 then num else s.mode)
    ensures r.state.volumes == s.volumes && r.state.lastSubfolder == s.lastSubfolder
  {
    var u := Unmount(PairsDone(s, os, num), os, "/data");
    if u.ret != 0 then Outcome(u.state, -1) else Outcome(u.state.(mode := num), 0)
  }
}
