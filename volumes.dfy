/**
 * The volume table of roots.c: the `Volume` record, the constants the dual-boot
 * logic keys on, the read-only scans over the table (`volume_for_path`,
 * `is_dualsystem`, `is_data_media`, `is_data_media_volume_path`) and the option
 * parser `parse_options` as a function on one option at a time.
 */
module Volumes {
  import opened Wrappers
  import opened CStrings

  /**
   * The device snapshot a `struct stat` carries for `mknod`: its mode and device
   * number, or the unspecified contents of a snapshot that was never filled in
   * (a failed `stat`, or a synthetic entry).
   */
  datatype Stat = NodeStat(mode: int, rdev: int) | Uninitialised

  /** One row of the volume table. NULL pointers are `None`. */
  datatype Volume = Volume(
    mountPoint: string,
    fsType: string,
    device: Option<string>,
    device2: Option<string>,
    fsType2: Option<string>,
    fsOptions: Option<string>,
    fsOptions2: Option<string>,
    lun: Option<string>,
    length: int,
    stat: Stat)

  // Dual-boot selectors and paths. roots.h, which defines them, is not part of
  // this model: the values below are assumed, and the proofs only use that the
  // four selectors are distinct, different from -1, and that SYSTEM0/SYSTEM1
  // are the non-negative subfolder numbers 0 and 1.
  const DualbootSystem0: int := 0
  const DualbootSystem1: int := 1
  const DualbootBoth: int := 2
  const DualbootInterchanged: int := 3
  const DataRoot: string := "/data_root"
  const Userdata0: string := "/data_root/userdata0"
  const Userdata1: string := "/data_root/userdata1"

  /** Where the loader moves the physical /data node on a dual-system device. */
  const MovedUserdata: string := "/dev/userdata_moved"

  /** The ramdisk entry that always heads the table. */
  const TmpVolume: Volume :=
    Volume("/tmp", "ramdisk", None, None, None, None, None, None, 0, Uninitialised)

  /** The synthetic second data volume appended after /data on dual-system devices. */
  const Data1Volume: Volume :=
    Volume("/data1", "bind", None, None, None, None, None, None, 0, Uninitialised)

  /** `is_null`: a NULL pointer or the literal text "NULL". */
  predicate IsNull(sz: Option<string>) {
    sz.None? || sz.value == "NULL"
  }

  /** `dupe_string`: a copy of the string, NULL for anything `is_null` accepts. */
  function DupeString(sz: Option<string>): (r: Option<string>)
    ensures r.None? <==> IsNull(sz)
    ensures r.Some? ==> sz == r && r.value != "NULL"
  {
    if IsNull(sz) then None else sz
  }

  /**
   * The match test of `volume_for_path`: the mount point is a prefix of the path
   * and the path ends there or continues with '/'.
   */
  predicate Matches(mountPoint: string, path: string) {
    StartsWith(path, mountPoint) && (|path| == |mountPoint| || path[|mountPoint|] == '/')
  }

  /** The first entry at index `from` or later whose mount point matches `path`. */
  function FirstMatchFrom(vols: seq<Volume>, path: string, from: nat): (r: Option<nat>)
    requires from <= |vols|
    ensures r.Some? ==> from <= r.value < |vols| && Matches(vols[r.value].mountPoint, path)
    ensures r.Some? ==> forall j :: from <= j < r.value ==> !Matches(vols[j].mountPoint, path)
    ensures r.None? ==> forall j :: from <= j < |vols| ==> !Matches(vols[j].mountPoint, path)
    decreases |vols| - from
  {
    if from == |vols| then None
    else if Matches(vols[from].mountPoint, path) then Some(from)
    else FirstMatchFrom(vols, path, from + 1)
  }

  /**
   * `volume_for_path`: the index of the first entry, in table order, whose
   * mount point matches `path`; `None` (NULL) when no entry matches.
   */
  function VolumeForPath(vols: seq<Volume>, path: string): (r: Option<nat>)
    ensures r.Some? ==> r.value < |vols| && Matches(vols[r.value].mountPoint, path)
    ensures r.Some? ==> forall j :: 0 <= j < r.value ==> !Matches(vols[j].mountPoint, path)
    ensures r.None? <==> forall j :: 0 <= j < |vols| ==> !Matches(vols[j].mountPoint, path)
  {
    FirstMatchFrom(vols, path, 0)
  }

  /** `is_dualsystem`: the table has a /system1 entry. */
  predicate IsDualsystem(vols: seq<Volume>) {
    exists i :: 0 <= i < |vols| && vols[i].mountPoint == "/system1"
  }

  /** `is_data_media`: the table has a volume of type datamedia. */
  predicate IsDataMedia(vols: seq<Volume>) {
    exists i :: 0 <= i < |vols| && vols[i].fsType == "datamedia"
  }

  /**
   * `is_data_media_volume_path`: the volume `path` resolves to has type
   * datamedia. The source dereferences the resolved volume, so the path must
   * resolve.
   */
  predicate IsDataMediaVolumePath(vols: seq<Volume>, path: string)
    requires VolumeForPath(vols, path).Some?
  {
    vols[VolumeForPath(vols, path).value].fsType == "datamedia"
  }

  /**
   * A table on which mounting any data-media path recurses without end: "/data"
   * itself resolves to a datamedia volume.
   */
  predicate DataIsDataMedia(vols: seq<Volume>) {
    VolumeForPath(vols, "/data").Some? && IsDataMediaVolumePath(vols, "/data")
  }

  /** The option keys `parse_options` recognises. */
  predicate KnownOption(option: string) {
    StartsWith(option, "length=") || StartsWith(option, "fstype2=") ||
    StartsWith(option, "fs_options=") || StartsWith(option, "fs_options2=") ||
    StartsWith(option, "lun=")
  }

  /** One iteration of the `parse_options` loop: `None` for a bad option. */
  function ApplyOption(option: string, v: Volume): (r: Option<Volume>)
    ensures r.Some? <==> KnownOption(option)
  {
    if StartsWith(option, "length=") then Some(v.(length := StrToLL(option[7..])))
    else if StartsWith(option, "fstype2=") then Some(v.(fsType2 := Some(v.fsType), fsType := option[8..]))
    else if StartsWith(option, "fs_options=") then Some(v.(fsOptions := Some(option[11..])))
    else if StartsWith(option, "fs_options2=") then Some(v.(fsOptions2 := Some(option[12..])))
    else if StartsWith(option, "lun=") then Some(v.(lun := Some(option[4..])))
    else None
  }

  /** `parse_options` over the whole option list: `None` when it returns -1. */
  function ApplyOptions(options: seq<string>, v: Volume): (r: Option<Volume>)
    ensures r.Some? <==> forall k :: 0 <= k < |options| ==> KnownOption(options[k])
    ensures r.Some? ==>
      r.value.mountPoint == v.mountPoint && r.value.device == v.device &&
      r.value.device2 == v.device2 && r.value.stat == v.stat
    decreases |options|
  {
    if options == [] then Some(v)
    else match ApplyOption(options[0], v)
      case None => None
      case Some(w) =>
        assert forall k :: 1 <= k < |options| ==> options[k] == options[1..][k - 1];
        ApplyOptions(options[1..], w)
  }

  /** The comma-separated options `strtok` hands to `parse_options`. */
  function OptionTokens(options: Option<string>): seq<string>
  {
    if options.None? then [] else Tokens(options.value, {','})
  }

  /**
   * The dual-boot selection table shared by `handle_volume_request` and the
   * bind protocol: for a selector, which of the two images (SYSTEM0 or SYSTEM1)
   * serves role 0 and role 1. Other selectors are unsupported.
   */
  function Selection(num: int): (r: Option<(int, int)>)
    ensures r.Some? <==> num in {DualbootSystem0, DualbootSystem1, DualbootBoth, DualbootInterchanged}
    ensures r.Some? ==> r.value.0 in {DualbootSystem0, DualbootSystem1} && r.value.1 in {DualbootSystem0, DualbootSystem1}
  {
    if num == DualbootSystem0 then Some((DualbootSystem0, DualbootSystem0))
    else if num == DualbootSystem1 then Some((DualbootSystem1, DualbootSystem1))
    else if num == DualbootBoth then Some((DualbootSystem0, DualbootSystem1))
    else if num == DualbootInterchanged then Some((DualbootSystem1, DualbootSystem0))
    else None
  }

  /** The subfolder table of the bind protocol: the unset mode -1 acts as BOTH. */
  function DataSubfolders(mode: int): (r: Option<(int, int)>)
    ensures r.Some? <==> mode in {-1, DualbootSystem0, DualbootSystem1, DualbootBoth, DualbootInterchanged}
  {
    if mode == -1 then Selection(DualbootBoth) else Selection(mode)
  }

  /** The bind source for a subfolder number: userdata0 for SYSTEM0, else userdata1. */
  function SubfolderPath(subfolder: int): string
  {
    if subfolder == DualbootSystem0 then Userdata0 else Userdata1
  }
}
