/**
 * roots.c's process-wide state as an object. The fields are the globals
 * (`device_volumes`/`num_volumes`, `selected_dualsystem_mode`,
 * `lastDataSubfolder`, `handle_data_media`, `handle_truedualsystem`) plus the
 * parts of the OS the code changes (mounted mount points, device nodes) and a
 * ghost log of external actions. Every method runs the source's steps and
 * ensures that the new state and the return value are those the specification
 * functions of module Roots give for the old state.
 */
module Session {
  import opened Wrappers
  import opened CStrings
  import opened Volumes
  import opened Fstab
  import opened Platform
  import opened Roots

  /**
   * `parse_options`: walk the comma-separated options, updating the volume;
   * `ok` is false (the C -1) at the first unrecognised option.
   */
  method ParseOptions(options: Option<string>, v: Volume) returns (ok: bool, w: Volume)
    ensures ok <==> ApplyOptions(OptionTokens(options), v).Some?
    ensures ok ==> w == ApplyOptions(OptionTokens(options), v).value
  {
    var opts := OptionTokens(options);
    w := v;
    var k := 0;
    while k < |opts|
      invariant 0 <= k <= |opts|
      invariant ApplyOptions(opts[k..], w) == ApplyOptions(opts, v)
    {
      var option := opts[k];
      assert opts[k..][0] == option && opts[k..][1..] == opts[k + 1..];
      if StartsWith(option, "length=") {
        w := w.(length := StrToLL(option[7..]));
      } else if StartsWith(option, "fstype2=") {
        w := w.(fsType2 := Some(w.fsType), fsType := option[8..]);
      } else if StartsWith(option, "fs_options=") {
        w := w.(fsOptions := Some(option[11..]));
      } else if StartsWith(option, "fs_options2=") {
        w := w.(fsOptions2 := Some(option[12..]));
      } else if StartsWith(option, "lun=") {
        w := w.(lun := Some(option[4..]));
      } else {
        return false, w;
      }
      k := k + 1;
    }
    ok := true;
  }

  class RecoverySession {
    var volumes: seq<Volume>
    var mounted: multiset<string>
    var nodes: map<string, Stat>
    var selectedDualsystemMode: int
    var lastDataSubfolder: int
    var handleDataMedia: int
    var handleTrueDualsystem: int
    ghost var log: seq<Event>

    /** The whole state as a value, for comparison with the specification. */
    ghost function Snapshot(): State
      reads this
    {
      State(volumes, mounted, nodes, selectedDualsystemMode, lastDataSubfolder,
            handleDataMedia, handleTrueDualsystem, log)
    }

    /** Process start: an empty table and the globals' initial values. */
    constructor (mounted0: multiset<string>, nodes0: map<string, Stat>)
      ensures Snapshot() == State([], mounted0, nodes0, -1, -1, 0, 0, [])
    {
      volumes := [];
      mounted := mounted0;
      nodes := nodes0;
      selectedDualsystemMode := -1;
      lastDataSubfolder := -1;
      handleDataMedia := 0;
      handleTrueDualsystem := 0;
      log := [];
    }

    /** `volume_for_path`: scan the table in order for the first matching mount point. */
    method VolumeForPath(path: string) returns (r: Option<nat>)
      ensures r.Some? ==> r.value < |volumes| && Matches(volumes[r.value].mountPoint, path)
      ensures r.Some? ==> forall j :: 0 <= j < r.value ==> !Matches(volumes[j].mountPoint, path)
      ensures r.None? ==> forall j :: 0 <= j < |volumes| ==> !Matches(volumes[j].mountPoint, path)
      ensures r == Volumes.VolumeForPath(volumes, path)
    {
      var i := 0;
      while i < |volumes|
        invariant 0 <= i <= |volumes|
        invariant forall j :: 0 <= j < i ==> !Matches(volumes[j].mountPoint, path)
      {
        var m := volumes[i].mountPoint;
        if |m| <= |path| && path[..|m|] == m && (|path| == |m| || path[|m|] == '/') {
          return Some(i);
        }
        i := i + 1;
      }
      return None;
    }

    /** `is_dualsystem`: look for a /system1 entry. */
    method IsDualsystem() returns (r: bool)
      ensures r <==> exists i :: 0 <= i < |volumes| && volumes[i].mountPoint == "/system1"
    {
      var i := 0;
      while i < |volumes|
        invariant 0 <= i <= |volumes|
        invariant forall j :: 0 <= j < i ==> volumes[j].mountPoint != "/system1"
      {
        if volumes[i].mountPoint == "/system1" {
          return true;
        }
        i := i + 1;
      }
      return false;
    }

    /** `is_data_media`: look for a datamedia entry. */
    method IsDataMedia() returns (r: bool)
      ensures r <==> exists i :: 0 <= i < |volumes| && volumes[i].fsType == "datamedia"
    {
      var i := 0;
      while i < |volumes|
        invariant 0 <= i <= |volumes|
        invariant forall j :: 0 <= j < i ==> volumes[j].fsType != "datamedia"
      {
        if volumes[i].fsType == "datamedia" {
          return true;
        }
        i := i + 1;
      }
      return false;
    }

    /** `is_data_media_volume_path`: the volume the path resolves to is datamedia. */
    method IsDataMediaVolumePath(path: string) returns (r: bool)
      requires Volumes.VolumeForPath(volumes, path).Some?
      ensures r == Volumes.IsDataMediaVolumePath(volumes, path)
    {
      var v := VolumeForPath(path);
      r := volumes[v.value].fsType == "datamedia";
    }

    /** `setup_data_media`: link the first datamedia volume's mount point to /data/media. */
    method SetupDataMedia()
      modifies this
      ensures Snapshot() == Roots.SetupDataMedia(old(Snapshot()))
    {
      var i := 0;
      while i < |volumes|
        invariant 0 <= i <= |volumes|
        invariant Snapshot() == old(Snapshot())
        invariant FirstDataMediaFrom(volumes, i) == FirstDataMediaFrom(volumes, 0)
      {
        if volumes[i].fsType == "datamedia" {
          log := log + [DataMediaLink(volumes[i].mountPoint)];
          return;
        }
        i := i + 1;
      }
    }

    /**
     * `load_volume_table`: the /tmp entry, then one entry per accepted line of
     * the fstab (`None` when it cannot be opened), with the dual-system /data
     * node move and the synthetic /data1 entry.
     */
    method LoadVolumeTable(fstab: Option<seq<string>>)
      modifies this
      ensures Loader(volumes, nodes) == Fstab.LoadVolumeTable(old(nodes), fstab)
      ensures mounted == old(mounted) && log == old(log)
      ensures selectedDualsystemMode == old(selectedDualsystemMode) && lastDataSubfolder == old(lastDataSubfolder)
      ensures handleDataMedia == old(handleDataMedia) && handleTrueDualsystem == old(handleTrueDualsystem)
    {
      volumes := [TmpVolume];
      if fstab.None? {
        return;
      }
      var buffers := fstab.value;
      var k := 0;
      while k < |buffers|
        invariant 0 <= k <= |buffers|
        invariant LoadLines(Loader(volumes, nodes), buffers[k..]) == LoadLines(Loader([TmpVolume], old(nodes)), buffers)
        invariant mounted == old(mounted) && log == old(log)
        invariant selectedDualsystemMode == old(selectedDualsystemMode) && lastDataSubfolder == old(lastDataSubfolder)
        invariant handleDataMedia == old(handleDataMedia) && handleTrueDualsystem == old(handleTrueDualsystem)
      {
        assert buffers[k..][0] == buffers[k] && buffers[k..][1..] == buffers[k + 1..];
        var line := SplitLine(buffers[k]);
        LoadFields(line);
        k := k + 1;
      }
    }

    /** One iteration of the loader loop once the buffer is split: add the line's entry, if any. */
    method LoadFields(line: Line)
      modifies this
      ensures Loader(volumes, nodes) == Fstab.LoadFields(old(Loader(volumes, nodes)), line)
      ensures mounted == old(mounted) && log == old(log)
      ensures selectedDualsystemMode == old(selectedDualsystemMode) && lastDataSubfolder == old(lastDataSubfolder)
      ensures handleDataMedia == old(handleDataMedia) && handleTrueDualsystem == old(handleTrueDualsystem)
    {
      if line.Entry? {
        var dual := IsDualsystem();
        var device := line.device;
        if dual && line.mountPoint == "/data" {
          nodes := RenameNode(nodes, device, MovedUserdata);
          device := MovedUserdata;
        }
        var base := BaseVolume(line.mountPoint, line.fsType, device, line.device2, StatOf(nodes, device));
        var ok, v := ParseOptions(line.options, base);
        if ok {
          volumes := volumes + [v];
          dual := IsDualsystem();
          if dual && line.mountPoint == "/data" {
            volumes := volumes + [Data1Volume];
          }
        }
      }
    }

    /** `try_mount`: -1 without a call when the device or fs_type is NULL. */
    method TryMount(os: Os, device: Option<string>, mountPoint: string, fsType: Option<string>, options: Option<string>)
      returns (r: int)
      modifies this
      ensures Outcome(Snapshot(), r) == Roots.TryMount(old(Snapshot()), os, device, mountPoint, fsType, options)
    {
      if device.None? || fsType.None? {
        return -1;
      }
      var a := Attempt(device.value, mountPoint, fsType.value, options);
      r := os.mountStatus(a);
      log := log + [MountAttempt(a)];
      mounted := MountedIf(mounted, mountPoint, r);
    }

    /** The fs_type dispatch that ends a plain mount, with the four-way fallback. */
    method MountByType(os: Os, v: Volume, mountPoint: string) returns (r: int)
      modifies this
      ensures Outcome(Snapshot(), r) == Roots.MountByType(old(Snapshot()), os, v, mountPoint)
    {
      if v.fsType == "yaffs2" {
        if v.device.None? || v.device.value !in os.mtdPartitions {
          return -1;
        }
        r := os.mtdMountStatus(v.device.value, mountPoint);
        log := log + [MtdMount(v.device.value, mountPoint)];
        mounted := MountedIf(mounted, mountPoint, r);
      } else if IsConventional(v.fsType) {
        r := TryMount(os, v.device, mountPoint, Some(v.fsType), v.fsOptions);
        if r == 0 { return; }
        r := TryMount(os, v.device2, mountPoint, Some(v.fsType), v.fsOptions);
        if r == 0 { return; }
        r := TryMount(os, v.device, mountPoint, v.fsType2, v.fsOptions2);
        if r == 0 { return; }
        r := TryMount(os, v.device2, mountPoint, v.fsType2, v.fsOptions2);
      } else {
        r := os.genericMountStatus(mountPoint);
        log := log + [GenericMount(mountPoint)];
        mounted := MountedIf(mounted, mountPoint, r);
      }
    }

    /** `ensure_path_mounted`. */
    method EnsurePathMounted(os: Os, path: string) returns (r: int)
      requires !DataIsDataMedia(volumes)
      modifies this
      ensures Outcome(Snapshot(), r) == MountAt(old(Snapshot()), os, path, None)
    {
      r := EnsurePathMountedAtMountPoint(os, path, None);
    }

    /** `ensure_path_mounted_at_mount_point`. */
    method EnsurePathMountedAtMountPoint(os: Os, path: string, mountPoint: Option<string>) returns (r: int)
      requires !DataIsDataMedia(volumes)
      modifies this
      ensures Outcome(Snapshot(), r) == MountAt(old(Snapshot()), os, path, mountPoint)
      decreases MountRank(path, mountPoint), 1
    {
      var vi := VolumeForPath(path);
      if vi.None? {
        return -1;
      }
      var v := volumes[vi.value];
      var dataMedia := IsDataMediaVolumePath(path);
      if dataMedia {
        r := EnsurePathMountedAtMountPoint(os, "/data", None);
        if r != 0 {
          return;
        }
        SetupDataMedia();
        return 0;
      }
      if v.fsType == "ramdisk" {
        return 0;
      }
      if !os.scanOk {
        return -1;
      }
      var target := mountPoint.GetOr(v.mountPoint);
      var dataNum := DataNum(path);
      var dual := IsDualsystem();
      if dataNum >= 0 && dual && target != DataRoot && os.trueDualboot {
        r := BindData(os, path, mountPoint, target, dataNum);
        return;
      }
      if target in mounted {
        return 0;
      }
      r := MountByType(os, v, target);
    }

    /** The dual-boot bind protocol of `ensure_path_mounted_at_mount_point`. */
    method BindData(os: Os, path: string, mountPoint: Option<string>, target: string, dataNum: int) returns (r: int)
      requires !DataIsDataMedia(volumes)
      requires dataNum == DataNum(path) && dataNum in {0, 1}
      requires target != DataRoot && (mountPoint.Some? ==> mountPoint.value == target)
      modifies this
      ensures Outcome(Snapshot(), r) == Roots.BindData(old(Snapshot()), os, path, mountPoint, target, dataNum)
      decreases MountRank(path, mountPoint), 0
    {
      r := EnsurePathMountedAtMountPoint(os, "/data", Some(DataRoot));
      if r != 0 {
        return;
      }
      r := BindSubfolder(os, target, dataNum);
    }

    /** The bind protocol once the data root is mounted. */
    method BindSubfolder(os: Os, target: string, dataNum: int) returns (r: int)
      modifies this
      ensures Outcome(Snapshot(), r) == Roots.BindSubfolder(old(Snapshot()), os, target, dataNum)
    {
      var sub := DataSubfolders(selectedDualsystemMode);
      if sub.None? {
        return -1;
      }
      var want := Wanted(selectedDualsystemMode, dataNum);
      if "/data" in mounted {
        if lastDataSubfolder >= 0 {
          if lastDataSubfolder != want {
            var u := EnsurePathUnmounted(os, "/data");
            if u != 0 {
              return -1;
            }
          }
        } else {
          return 0;
        }
      }
      var source := SubfolderPath(want);
      r := os.bindStatus(source, target);
      log := log + [BindMount(source, target)];
      if r != 0 {
        return;
      }
      mounted := mounted + multiset{target};
      lastDataSubfolder := want;
      return 0;
    }

    /** `unmount_mounted_volume` on a mount point the scan lists. */
    method UnmountMountedVolume(os: Os, mountPoint: string) returns (r: int)
      modifies this
      ensures Outcome(Snapshot(), r) == UmountPoint(old(Snapshot()), os, mountPoint)
    {
      r := os.umountStatus(mountPoint);
      log := log + [Unmounted(mountPoint)];
      mounted := UnmountedIf(mounted, mountPoint, r);
    }

    /** `ensure_path_unmounted`. */
    method EnsurePathUnmounted(os: Os, path: string) returns (r: int)
      modifies this
      ensures Outcome(Snapshot(), r) == Unmount(old(Snapshot()), os, path)
      decreases if path == "/data" then 0 else 1
    {
      var dataMediaDevice := IsDataMedia();
      if StartsWith(path, "/data") && dataMediaDevice {
        return 0;
      }
      var dual := IsDualsystem();
      if StartsWith(path, DataRoot) && dual && os.trueDualboot {
        return 0;
      }
      var vi := VolumeForPath(path);
      if vi.None? {
        return -1;
      }
      var v := volumes[vi.value];
      var dataMedia := IsDataMediaVolumePath(path);
      if dataMedia {
        assert volumes[vi.value].fsType == "datamedia";
        r := EnsurePathUnmounted(os, "/data");
        return;
      }
      if v.fsType == "ramdisk" {
        return -1;
      }
      if !os.scanOk {
        return -1;
      }
      r := UnmountScanned(os, path, v.mountPoint);
    }

    /** The end of `ensure_path_unmounted`, after a successful scan. */
    method UnmountScanned(os: Os, path: string, mountPoint: string) returns (r: int)
      modifies this
      ensures Outcome(Snapshot(), r) == Roots.UnmountScanned(old(Snapshot()), os, path, mountPoint)
    {
      var dual := IsDualsystem();
      if StartsWith(path, "/data") && dual && !(os.trueDualboot && handleTrueDualsystem == 0) && DataRoot in mounted {
        var ignored := UnmountMountedVolume(os, DataRoot);
      }
      if mountPoint !in mounted {
        return 0;
      }
      r := UnmountMountedVolume(os, mountPoint);
    }

    /** `format_unknown_device`, whose work is outside this model: recorded and answered by the oracle. */
    method FormatUnknownDevice(os: Os, device: Option<string>, path: string, fsType: Option<string>) returns (r: int)
      modifies this
      ensures Outcome(Snapshot(), r) == Roots.FormatUnknownDevice(old(Snapshot()), os, device, path, fsType)
    {
      r := os.formatUnknownStatus(device, path, fsType);
      log := log + [FormatUnknown(device, path, fsType)];
    }

    /** `format_volume`. */
    method FormatVolume(os: Os, path: string) returns (r: int)
      modifies this
      ensures Outcome(Snapshot(), r) == Format(old(Snapshot()), os, path)
    {
      var vi := VolumeForPath(path);
      if vi.None? {
        // The source is silent for "/sd-ext" and logs otherwise; both return -1.
        return -1;
      }
      var v := volumes[vi.value];
      var dataMedia := IsDataMediaVolumePath(path);
      if dataMedia {
        r := FormatUnknownDevice(os, None, path, None);
        return;
      }
      var dataMediaDevice := IsDataMedia();
      if StartsWith(path, "/data") && dataMediaDevice && handleDataMedia == 0 {
        r := FormatUnknownDevice(os, None, path, None);
        return;
      }
      var dual := IsDualsystem();
      if StartsWith(path, "/data") && dual && os.trueDualboot && handleTrueDualsystem == 0 {
        r := FormatUnknownDevice(os, None, path, None);
        return;
      }
      if v.fsType == "ramdisk" {
        return -1;
      }
      if v.mountPoint != path {
        r := FormatUnknownDevice(os, v.device, path, None);
        return;
      }
      r := FormatWhole(os, path, v);
    }

    /** The end of `format_volume` for a whole volume: unmount, then format by fs_type. */
    method FormatWhole(os: Os, path: string, v: Volume) returns (r: int)
      modifies this
      ensures Outcome(Snapshot(), r) == Roots.FormatWhole(old(Snapshot()), os, path, v)
    {
      var u := EnsurePathUnmounted(os, path);
      if u != 0 {
        return -1;
      }
      if v.fsType == "yaffs2" || v.fsType == "mtd" {
        if v.device.None? || v.device.value !in os.mtdPartitions {
          return -1;
        }
        var d := v.device.value;
        if !os.mtdWriteOpenOk(d) {
          return -1;
        }
        log := log + [MtdErase(d)];
        if !os.mtdEraseOk(d) {
          return -1;
        }
        if !os.mtdCloseOk(d) {
          return -1;
        }
        return 0;
      }
      if v.fsType == "ext4" {
        var status := os.ext4Status(v.device, v.length, path);
        log := log + [BuildExt4(v.device, v.length, path)];
        if status != 0 {
          return -1;
        }
        return 0;
      }
      r := FormatUnknownDevice(os, v.device, path, Some(v.fsType));
    }

    /** `replace_device_node`: unmount, delete the node, recreate it from `stat`. */
    method ReplaceDeviceNode(os: Os, vol: nat, stat: Stat) returns (r: int)
      requires vol < |volumes|
      modifies this
      ensures Outcome(Snapshot(), r) == Roots.ReplaceDeviceNode(old(Snapshot()), os, vol, stat)
    {
      var v := volumes[vol];
      var u := EnsurePathUnmounted(os, v.mountPoint);
      if u != 0 {
        return -1;
      }
      if v.device.None? || v.device.value !in nodes {
        return -1;
      }
      var d := v.device.value;
      nodes := nodes - {d};
      log := log + [MakeNode(d, stat)];
      if !os.mknodOk(d, stat) {
        return -1;
      }
      nodes := nodes[d := stat];
      return 0;
    }

    /** `handle_volume_request`. */
    method HandleVolumeRequest(os: Os, vol0: Option<nat>, vol1: Option<nat>, num: int) returns (r: int)
      requires vol0.Some? ==> vol0.value < |volumes|
      requires vol1.Some? ==> vol1.value < |volumes|
      modifies this
      ensures Outcome(Snapshot(), r) == Roots.HandleVolumeRequest(old(Snapshot()), os, vol0, vol1, num)
    {
      if vol0.None? || vol1.None? {
        return -1;
      }
      var sel := Selection(num);
      if sel.None? {
        return -1;
      }
      var i0, i1 := vol0.value, vol1.value;
      var stat0 := ImageStat(volumes, i0, i1, sel.value.0);
      var stat1 := ImageStat(volumes, i0, i1, sel.value.1);
      r := ReplaceDeviceNode(os, i0, stat0);
      if r != 0 {
        return -1;
      }
      r := ReplaceDeviceNode(os, i1, stat1);
      if r != 0 {
        return -1;
      }
      return 0;
    }

    /** `set_active_system`. */
    method SetActiveSystem(os: Os, num: int) returns (r: int)
      modifies this
      ensures Outcome(Snapshot(), r) == Roots.SetActiveSystem(old(Snapshot()), os, num)
    {
      HandlePairs(os, num);
      var u := EnsurePathUnmounted(os, "/data");
      if u != 0 {
        return -1;
      }
      selectedDualsystemMode := num;
      return 0;
    }

    /** The three pair requests of `set_active_system`, whose results it ignores. */
    method HandlePairs(os: Os, num: int)
      modifies this
      ensures Snapshot() == PairsDone(old(Snapshot()), os, num)
    {
      var system0 := VolumeForPath("/system");
      var system1 := VolumeForPath("/system1");
      var boot0 := VolumeForPath("/boot");
      var boot1 := VolumeForPath("/boot1");
      var radio0 := VolumeForPath("/radio");
      var radio1 := VolumeForPath("/radio1");
      var ignored := HandleVolumeRequest(os, system0, system1, num);
      ignored := HandleVolumeRequest(os, boot0, boot1, num);
      ignored := HandleVolumeRequest(os, radio0, radio1, num);
    }

    /** `handle_data_media_format`. */
    method HandleDataMediaFormat(handle: int)
      modifies this
      ensures Snapshot() == old(Snapshot()).(handleDataMedia := handle)
    {
      handleDataMedia := handle;
    }

    /** `handle_truedualsystem_format`. */
    method HandleTruedualsystemFormat(handle: int)
      modifies this
      ensures Snapshot() == old(Snapshot()).(handleTrueDual := handle)
    {
      handleTrueDualsystem := handle;
    }
  }
}
