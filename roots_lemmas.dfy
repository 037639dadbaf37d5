/**
 * What the decision logic of roots.c promises: the mount shortcuts, the order
 * of the four-way fallback against a reference walk, idempotence where it
 * holds and the rebind where it does not, the subfolder rule of the bind
 * protocol, the unmount and format protections, and the node writes and commit
 * rule of the dual-system activator.
 */
module RootsLemmas {
  import opened Wrappers
  import opened CStrings
  import opened Volumes
  import opened Platform
  import opened Roots

  // ---------------------------------------------------------------------------
  // The four-way fallback, against a reference walk over the candidates

  /** A fallback candidate: device, fs_type and options, any of them NULL. */
  datatype Candidate = Candidate(device: Option<string>, fsType: Option<string>, options: Option<string>)

  /** The four fallback candidates in the order the source tries them. */
  function Candidates(v: Volume): seq<Candidate> {
    [Candidate(v.device, Some(v.fsType), v.fsOptions),
     Candidate(v.device2, Some(v.fsType), v.fsOptions),
     Candidate(v.device, v.fsType2, v.fsOptions2),
     Candidate(v.device2, v.fsType2, v.fsOptions2)]
  }

  /** Whether a candidate reaches the mount call at all. */
  predicate Complete(c: Candidate) {
    c.device.Some? && c.fsType.Some?
  }

  /** A candidate's status: -1 with no call when it is incomplete, else the mount's. */
  function Status(os: Os, mountPoint: string, c: Candidate): int {
    if Complete(c) then os.mountStatus(Attempt(c.device.value, mountPoint, c.fsType.value, c.options)) else -1
  }

  /** The mount call a candidate makes: none when it is incomplete. */
  function Call(mountPoint: string, c: Candidate): seq<Event> {
    if Complete(c) then [MountAttempt(Attempt(c.device.value, mountPoint, c.fsType.value, c.options))] else []
  }

  /** The mount calls made walking the candidates from `k` until one succeeds. */
  function CallsFrom(os: Os, mountPoint: string, cs: seq<Candidate>, k: nat): seq<Event>
    requires k <= |cs|
    decreases |cs| - k
  {
    if k == |cs| then []
    else
      Call(mountPoint, cs[k]) + (if Status(os, mountPoint, cs[k]) == 0 then [] else CallsFrom(os, mountPoint, cs, k + 1))
  }

  /** The walk's result: 0 at the first success, otherwise the last candidate's status. */
  function FinalFrom(os: Os, mountPoint: string, cs: seq<Candidate>, k: nat): int
    requires k < |cs|
    decreases |cs| - k
  {
    if Status(os, mountPoint, cs[k]) == 0 || k == |cs| - 1 then Status(os, mountPoint, cs[k])
    else FinalFrom(os, mountPoint, cs, k + 1)
  }

  /** One `try_mount` is one step of the walk. */
  lemma TryMountStep(s: State, os: Os, mountPoint: string, c: Candidate)
    ensures TryMount(s, os, c.device, mountPoint, c.fsType, c.options) ==
      Outcome(s.(log := s.log + Call(mountPoint, c),
                 mounted := MountedIf(s.mounted, mountPoint, Status(os, mountPoint, c))),
              Status(os, mountPoint, c))
  {
    if !Complete(c) {
      assert s.log + [] == s.log;
    }
  }

  /** `try_mount` over the candidates from `k` on, stopping at the first success. */
  function Walk(s: State, os: Os, mountPoint: string, cs: seq<Candidate>, k: nat): Outcome
    requires k < |cs|
    decreases |cs| - k
  {
    var r := TryMount(s, os, cs[k].device, mountPoint, cs[k].fsType, cs[k].options);
    if r.ret == 0 || k == |cs| - 1 then r else Walk(r.state, os, mountPoint, cs, k + 1)
  }

  /** The source's four unrolled calls are the walk over `Candidates`. */
  lemma FallbackUnrolled(s: State, os: Os, v: Volume, mountPoint: string)
    ensures Fallback(s, os, v, mountPoint) == Walk(s, os, mountPoint, Candidates(v), 0)
  {
    var cs := Candidates(v);
    var r0 := TryMount(s, os, v.device, mountPoint, Some(v.fsType), v.fsOptions);
    var r1 := TryMount(r0.state, os, v.device2, mountPoint, Some(v.fsType), v.fsOptions);
    var r2 := TryMount(r1.state, os, v.device, mountPoint, v.fsType2, v.fsOptions2);
    assert Walk(r2.state, os, mountPoint, cs, 3) == TryMount(r2.state, os, v.device2, mountPoint, v.fsType2, v.fsOptions2);
    assert Walk(r1.state, os, mountPoint, cs, 2) == if r2.ret == 0 then r2 else Walk(r2.state, os, mountPoint, cs, 3);
    assert Walk(r0.state, os, mountPoint, cs, 1) == if r1.ret == 0 then r1 else Walk(r1.state, os, mountPoint, cs, 2);
  }

  /** The outcome of the reference walk from `k`: its calls logged, its status, the mount on success. */
  function Reference(s: State, os: Os, mountPoint: string, cs: seq<Candidate>, k: nat): Outcome
    requires k < |cs|
  {
    Outcome(s.(log := s.log + CallsFrom(os, mountPoint, cs, k),
               mounted := MountedIf(s.mounted, mountPoint, FinalFrom(os, mountPoint, cs, k))),
            FinalFrom(os, mountPoint, cs, k))
  }

  /**
   * The walk makes exactly the reference calls and ends with the reference
   * status, and the mount table gains the mount point only on success.
   */
  lemma {:induction false} WalkIsReference(s: State, os: Os, mountPoint: string, cs: seq<Candidate>, k: nat)
    requires k < |cs|
    ensures Walk(s, os, mountPoint, cs, k) == Reference(s, os, mountPoint, cs, k)
    decreases |cs| - k
  {
    var r := TryMount(s, os, cs[k].device, mountPoint, cs[k].fsType, cs[k].options);
    if r.ret == 0 || k == |cs| - 1 {
      WalkStops(s, os, mountPoint, cs, k);
    } else {
      WalkFailedStep(s, os, mountPoint, cs, k);
      var t := s.(log := s.log + Call(mountPoint, cs[k]));
      WalkIsReference(t, os, mountPoint, cs, k + 1);
      ReferenceStep(s, os, mountPoint, cs, k);
    }
  }

  /** The walk's last step: the attempt that succeeds, or the final candidate. */
  lemma WalkStops(s: State, os: Os, mountPoint: string, cs: seq<Candidate>, k: nat)
    requires k < |cs|
    requires TryMount(s, os, cs[k].device, mountPoint, cs[k].fsType, cs[k].options).ret == 0 || k == |cs| - 1
    ensures Walk(s, os, mountPoint, cs, k) == Reference(s, os, mountPoint, cs, k)
  {
    TryMountStep(s, os, mountPoint, cs[k]);
    if k == |cs| - 1 {
      assert CallsFrom(os, mountPoint, cs, k + 1) == [];
    }
    assert Call(mountPoint, cs[k]) + [] == Call(mountPoint, cs[k]);
  }

  /** A failed attempt only logs its call, and the walk moves on to the next candidate. */
  lemma WalkFailedStep(s: State, os: Os, mountPoint: string, cs: seq<Candidate>, k: nat)
    requires k < |cs| - 1
    requires TryMount(s, os, cs[k].device, mountPoint, cs[k].fsType, cs[k].options).ret != 0
    ensures Status(os, mountPoint, cs[k]) != 0
    ensures Walk(s, os, mountPoint, cs, k) ==
      Walk(s.(log := s.log + Call(mountPoint, cs[k])), os, mountPoint, cs, k + 1)
  {
    TryMountStep(s, os, mountPoint, cs[k]);
  }

  /** After a failed candidate, the reference from `k` is the reference from `k + 1` with its call logged. */
  lemma ReferenceStep(s: State, os: Os, mountPoint: string, cs: seq<Candidate>, k: nat)
    requires k < |cs| - 1 && Status(os, mountPoint, cs[k]) != 0
    ensures Reference(s.(log := s.log + Call(mountPoint, cs[k])), os, mountPoint, cs, k + 1) ==
      Reference(s, os, mountPoint, cs, k)
  {
    var call, rest := Call(mountPoint, cs[k]), CallsFrom(os, mountPoint, cs, k + 1);
    assert CallsFrom(os, mountPoint, cs, k) == call + rest;
    assert s.log + call + rest == s.log + (call + rest);
  }

  /** The walk succeeds exactly when some candidate from `k` on succeeds. */
  lemma {:induction false} FinalSucceeds(os: Os, mountPoint: string, cs: seq<Candidate>, k: nat)
    requires k < |cs|
    ensures FinalFrom(os, mountPoint, cs, k) == 0 <==> exists j :: k <= j < |cs| && Status(os, mountPoint, cs[j]) == 0
    decreases |cs| - k
  {
    if Status(os, mountPoint, cs[k]) != 0 && k < |cs| - 1 {
      FinalSucceeds(os, mountPoint, cs, k + 1);
      if exists j :: k <= j < |cs| && Status(os, mountPoint, cs[j]) == 0 {
        var j :| k <= j < |cs| && Status(os, mountPoint, cs[j]) == 0;
        assert j != k;
      }
    }
  }

  /**
   * The fallback makes exactly the calls of the reference walk, in order,
   * stopping at the first success; its result is 0 at the first success and
   * otherwise the last attempt's status; it succeeds exactly when some
   * candidate does.
   */
  lemma FallbackIsReference(s: State, os: Os, v: Volume, mountPoint: string)
    ensures Fallback(s, os, v, mountPoint).ret == FinalFrom(os, mountPoint, Candidates(v), 0)
    ensures Fallback(s, os, v, mountPoint).state ==
      s.(log := s.log + CallsFrom(os, mountPoint, Candidates(v), 0),
         mounted := MountedIf(s.mounted, mountPoint, Fallback(s, os, v, mountPoint).ret))
    ensures Fallback(s, os, v, mountPoint).ret == 0 <==>
      exists k :: 0 <= k < 4 && Status(os, mountPoint, Candidates(v)[k]) == 0
  {
    FallbackUnrolled(s, os, v, mountPoint);
    WalkIsReference(s, os, mountPoint, Candidates(v), 0);
    FinalSucceeds(os, mountPoint, Candidates(v), 0);
  }

  // ---------------------------------------------------------------------------
  // Mount shortcuts, idempotence and the rebind

  /** Mounting a ramdisk path succeeds and changes nothing. */
  lemma MountRamdiskNoop(s: State, os: Os, path: string, mountPoint: Option<string>)
    requires !DataIsDataMedia(s.volumes)
    requires VolumeForPath(s.volumes, path).Some?
    requires s.volumes[VolumeForPath(s.volumes, path).value].fsType == "ramdisk"
    ensures MountAt(s, os, path, mountPoint) == Outcome(s, 0)
  {
  }

  /** An unknown path, or a failed scan of the mounted volumes, fails the mount with nothing done. */
  lemma MountUnresolvedOrScanFail(s: State, os: Os, path: string, mountPoint: Option<string>)
    requires !DataIsDataMedia(s.volumes)
    requires VolumeForPath(s.volumes, path).None? ||
      (!IsDataMediaVolumePath(s.volumes, path) &&
       s.volumes[VolumeForPath(s.volumes, path).value].fsType != "ramdisk" && !os.scanOk)
    ensures MountAt(s, os, path, mountPoint) == Outcome(s, -1)
  {
  }

  /**
   * On a dual-system device with true dual boot on, /data and /data1 go
   * through the bind protocol unless the target is the data root itself.
   */
  lemma MountEntersBind(s: State, os: Os, path: string, mountPoint: Option<string>)
    requires !DataIsDataMedia(s.volumes)
    requires VolumeForPath(s.volumes, path).Some? && !IsDataMediaVolumePath(s.volumes, path)
    requires s.volumes[VolumeForPath(s.volumes, path).value].fsType != "ramdisk" && os.scanOk
    requires DataNum(path) >= 0 && IsDualsystem(s.volumes) && os.trueDualboot
    requires mountPoint.GetOr(s.volumes[VolumeForPath(s.volumes, path).value].mountPoint) != DataRoot
    ensures var target := mountPoint.GetOr(s.volumes[VolumeForPath(s.volumes, path).value].mountPoint);
      MountAt(s, os, path, mountPoint) == BindData(s, os, path, mountPoint, target, DataNum(path))
  {
  }

  /**
   * Outside the bind protocol, a volume that is not ramdisk or datamedia and
   * whose target is not mounted is mounted by its fs_type.
   */
  lemma MountDispatch(s: State, os: Os, path: string, mountPoint: Option<string>)
    requires !DataIsDataMedia(s.volumes)
    requires VolumeForPath(s.volumes, path).Some? && !IsDataMediaVolumePath(s.volumes, path)
    requires s.volumes[VolumeForPath(s.volumes, path).value].fsType != "ramdisk" && os.scanOk
    requires var target := mountPoint.GetOr(s.volumes[VolumeForPath(s.volumes, path).value].mountPoint);
      (DataNum(path) < 0 || !IsDualsystem(s.volumes) || !os.trueDualboot || target == DataRoot) &&
      target !in s.mounted
    ensures var v := s.volumes[VolumeForPath(s.volumes, path).value];
      MountAt(s, os, path, mountPoint) == MountByType(s, os, v, mountPoint.GetOr(v.mountPoint))
  {
  }

  /**
   * Mounting onto a mount point already in the mounted set succeeds and
   * changes nothing, outside the bind protocol of a true-dual-boot device.
   */
  lemma MountAlreadyMountedNoop(s: State, os: Os, path: string, mountPoint: Option<string>)
    requires !DataIsDataMedia(s.volumes)
    requires VolumeForPath(s.volumes, path).Some? && !IsDataMediaVolumePath(s.volumes, path)
    requires os.scanOk
    requires mountPoint.GetOr(s.volumes[VolumeForPath(s.volumes, path).value].mountPoint) in s.mounted
    requires DataNum(path) < 0 || !IsDualsystem(s.volumes) || !os.trueDualboot ||
      mountPoint.GetOr(s.volumes[VolumeForPath(s.volumes, path).value].mountPoint) == DataRoot
    ensures MountAt(s, os, path, mountPoint) == Outcome(s, 0)
  {
  }

  /**
   * A datamedia path is mounted by mounting /data; on success the media
   * directory is linked to the first datamedia volume, as the last action.
   */
  lemma MountDataMediaPath(s: State, os: Os, path: string, mountPoint: Option<string>)
    requires !DataIsDataMedia(s.volumes)
    requires VolumeForPath(s.volumes, path).Some? && IsDataMediaVolumePath(s.volumes, path)
    ensures MountAt(s, os, path, mountPoint).ret == MountAt(s, os, "/data", None).ret
    ensures MountAt(s, os, path, mountPoint).ret == 0 ==>
      exists i :: 0 <= i < |s.volumes| && s.volumes[i].fsType == "datamedia" &&
        MountAt(s, os, path, mountPoint).state.log == MountAt(s, os, "/data", None).state.log + [DataMediaLink(s.volumes[i].mountPoint)]
    ensures MountAt(s, os, path, mountPoint).ret == 0 ==>
      MountAt(s, os, path, mountPoint).state == SetupDataMedia(MountAt(s, os, "/data", None).state)
  {
    var i := VolumeForPath(s.volumes, path).value;
    assert IsDataMedia(s.volumes) by {
      assert s.volumes[i].fsType == "datamedia";
    }
    assert MountAt(s, os, "/data", None).state.volumes == s.volumes;
  }

  /**
   * Outside the bind protocol, a second mount of a path that mounted
   * successfully succeeds and changes nothing.
   */
  lemma MountIdempotent(s: State, os: Os, path: string, mountPoint: Option<string>)
    requires !DataIsDataMedia(s.volumes)
    requires VolumeForPath(s.volumes, path).Some? && !IsDataMediaVolumePath(s.volumes, path)
    requires DataNum(path) < 0 || !IsDualsystem(s.volumes) || !os.trueDualboot ||
      mountPoint.GetOr(s.volumes[VolumeForPath(s.volumes, path).value].mountPoint) == DataRoot
    ensures MountAt(s, os, path, mountPoint).ret == 0 ==>
      MountAt(MountAt(s, os, path, mountPoint).state, os, path, mountPoint) == Outcome(MountAt(s, os, path, mountPoint).state, 0)
  {
    var r := MountAt(s, os, path, mountPoint);
    assert r.state.volumes == s.volumes;
    if r.ret == 0 && r.state != s {
      var v := s.volumes[VolumeForPath(s.volumes, path).value];
      assert mountPoint.GetOr(v.mountPoint) in r.state.mounted;
      MountAlreadyMountedNoop(r.state, os, path, mountPoint);
    }
  }

  /**
   * On a true-dual-boot device, mounting /data while it is mounted and bound to
   * the subfolder the mode wants binds the subfolder once more: the mount is
   * not idempotent there.
   */
  lemma DualDataRebinds(s: State, os: Os)
    requires !DataIsDataMedia(s.volumes)
    requires VolumeForPath(s.volumes, "/data").Some?
    requires s.volumes[VolumeForPath(s.volumes, "/data").value].mountPoint == "/data"
    requires s.volumes[VolumeForPath(s.volumes, "/data").value].fsType != "ramdisk"
    requires IsDualsystem(s.volumes) && os.trueDualboot && os.scanOk
    requires DataRoot in s.mounted && "/data" in s.mounted
    requires DataSubfolders(s.mode).Some? && s.lastSubfolder == Wanted(s.mode, 0)
    requires os.bindStatus(SubfolderPath(s.lastSubfolder), "/data") == 0
    ensures MountAt(s, os, "/data", None) ==
      Outcome(s.(log := s.log + [BindMount(SubfolderPath(s.lastSubfolder), "/data")],
                 mounted := s.mounted + multiset{"/data"}), 0)
    ensures MountAt(s, os, "/data", None).state.mounted["/data"] == s.mounted["/data"] + 1
  {
    assert MountAt(s, os, "/data", Some(DataRoot)) == Outcome(s, 0);
  }

  // ---------------------------------------------------------------------------
  // The bind protocol

  /** No bind was logged after position `from`. */
  predicate NoBindAfter(log: seq<Event>, from: nat) {
    from <= |log| && forall k :: from <= k < |log| ==> !log[k].BindMount?
  }

  /** The data-root request never binds and leaves lastDataSubfolder and every mount in place. */
  lemma RootMountNoBind(s: State, os: Os)
    requires !DataIsDataMedia(s.volumes)
    ensures var r := MountAt(s, os, "/data", Some(DataRoot));
      r.state.lastSubfolder == s.lastSubfolder && s.mounted <= r.state.mounted &&
      OnlyMountsAfter(r.state.log, |s.log|)
  {
  }

  /** An unsupported mode fails the protocol before any bind and keeps lastDataSubfolder. */
  lemma BindInvalidModeFails(s: State, os: Os, path: string, mountPoint: Option<string>, target: string, dataNum: int)
    requires !DataIsDataMedia(s.volumes)
    requires dataNum == DataNum(path) && dataNum in {0, 1}
    requires target != DataRoot && (mountPoint.Some? ==> mountPoint.value == target)
    requires DataSubfolders(s.mode).None?
    ensures var r := BindData(s, os, path, mountPoint, target, dataNum);
      r.ret != 0 && r.state.lastSubfolder == s.lastSubfolder && NoBindAfter(r.state.log, |s.log|)
  {
    RootMountNoBind(s, os);
  }

  /**
   * When /data is mounted and nothing was bound before, the protocol returns
   * with the data root's result and binds nothing.
   */
  lemma BindEarlyReturn(s: State, os: Os, path: string, mountPoint: Option<string>, target: string, dataNum: int)
    requires !DataIsDataMedia(s.volumes)
    requires dataNum == DataNum(path) && dataNum in {0, 1}
    requires target != DataRoot && (mountPoint.Some? ==> mountPoint.value == target)
    requires DataSubfolders(s.mode).Some? && "/data" in s.mounted && s.lastSubfolder < 0
    ensures var r := BindData(s, os, path, mountPoint, target, dataNum);
      r == MountAt(s, os, "/data", Some(DataRoot)) && NoBindAfter(r.state.log, |s.log|) &&
      r.state.lastSubfolder == s.lastSubfolder
  {
    RootMountNoBind(s, os);
  }

  /**
   * lastDataSubfolder changes only by a successful bind, and then names the
   * subfolder the mode picks for this data path; every successful bind sets it.
   */
  lemma BindSubfolderRule(s: State, os: Os, path: string, mountPoint: Option<string>, target: string, dataNum: int)
    requires !DataIsDataMedia(s.volumes)
    requires dataNum == DataNum(path) && dataNum in {0, 1}
    requires target != DataRoot && (mountPoint.Some? ==> mountPoint.value == target)
    ensures var r := BindData(s, os, path, mountPoint, target, dataNum);
      (r.state.lastSubfolder != s.lastSubfolder ==>
        r.ret == 0 && DataSubfolders(s.mode).Some? && r.state.lastSubfolder == Wanted(s.mode, dataNum) &&
        |r.state.log| > 0 && r.state.log[|r.state.log| - 1] == BindMount(SubfolderPath(r.state.lastSubfolder), target)) &&
      (r.ret == 0 && !NoBindAfter(r.state.log, |s.log|) ==>
        DataSubfolders(s.mode).Some? && r.state.lastSubfolder == Wanted(s.mode, dataNum))
  {
    RootMountNoBind(s, os);
    var root := MountAt(s, os, "/data", Some(DataRoot));
    assert NoBindAfter(root.state.log, |s.log|);
    if root.ret == 0 {
      assert BindData(s, os, path, mountPoint, target, dataNum) == BindSubfolder(root.state, os, target, dataNum);
      BindSubfolderRuleAfterRoot(root.state, os, target, dataNum);
    } else {
      assert BindData(s, os, path, mountPoint, target, dataNum) == root;
    }
  }

  /** The subfolder rule for the bind once the data root is mounted. */
  lemma BindSubfolderRuleAfterRoot(s: State, os: Os, target: string, dataNum: int)
    ensures var r := BindSubfolder(s, os, target, dataNum);
      r.state.lastSubfolder != s.lastSubfolder ==>
        r.ret == 0 && DataSubfolders(s.mode).Some? && r.state.lastSubfolder == Wanted(s.mode, dataNum) &&
        |r.state.log| > 0 && r.state.log[|r.state.log| - 1] == BindMount(SubfolderPath(r.state.lastSubfolder), target)
    ensures var r := BindSubfolder(s, os, target, dataNum);
      r.ret == 0 ==> r.state == s || (DataSubfolders(s.mode).Some? && r.state.lastSubfolder == Wanted(s.mode, dataNum))
  {
    if DataSubfolders(s.mode).Some? {
      var want := Wanted(s.mode, dataNum);
      var u := if "/data" in s.mounted && s.lastSubfolder != want then Unmount(s, os, "/data") else Outcome(s, 0);
      assert u.state.lastSubfolder == s.lastSubfolder;
    }
  }

  /**
   * Switching subfolders: with /data bound to the other subfolder, /data is
   * unmounted first; if that fails the protocol stops with -1 and binds nothing,
   * otherwise the wanted subfolder is bound onto the target right after it.
   */
  lemma BindSwitchOver(s: State, os: Os, target: string, dataNum: int)
    requires DataSubfolders(s.mode).Some? && "/data" in s.mounted
    requires 0 <= s.lastSubfolder != Wanted(s.mode, dataNum)
    ensures var u := Unmount(s, os, "/data");
      var r := BindSubfolder(s, os, target, dataNum);
      u.state.log <= r.state.log &&
      (u.ret != 0 ==> r == Outcome(u.state, -1) && NoBindAfter(r.state.log, |s.log|)) &&
      (u.ret == 0 ==> r.state.log == u.state.log + [BindMount(SubfolderPath(Wanted(s.mode, dataNum)), target)])
  {
    var u := Unmount(s, os, "/data");
    assert OnlyUnmountsAfter(u.state.log, |s.log|);
  }

  /** The subfolder table: -1 acts as BOTH, and INTERCHANGED is BOTH reversed. */
  lemma SelectionTable()
    ensures Selection(DualbootSystem0) == Some((DualbootSystem0, DualbootSystem0))
    ensures Selection(DualbootSystem1) == Some((DualbootSystem1, DualbootSystem1))
    ensures Selection(DualbootBoth) == Some((DualbootSystem0, DualbootSystem1))
    ensures Selection(DualbootInterchanged) == Some((Selection(DualbootBoth).value.1, Selection(DualbootBoth).value.0))
    ensures DataSubfolders(-1) == Selection(DualbootBoth)
    ensures forall m :: m != -1 ==> DataSubfolders(m) == Selection(m)
  {
  }

  // ---------------------------------------------------------------------------
  // Unmount protections

  /** The data root lies under the raw "/data" prefix. */
  lemma DataRootUnderData()
    ensures StartsWith(DataRoot, "/data")
    ensures forall p :: StartsWith(p, DataRoot) ==> StartsWith(p, "/data")
  {
    forall p | StartsWith(p, DataRoot)
      ensures StartsWith(p, "/data")
    {
      assert p[..5] == p[..10][..5];
    }
  }

  /** The ramdisk cannot be unmounted. */
  lemma UnmountRamdiskRefused(s: State, os: Os, path: string)
    requires !StartsWith(path, "/data")
    requires VolumeForPath(s.volumes, path).Some?
    requires s.volumes[VolumeForPath(s.volumes, path).value].fsType == "ramdisk"
    ensures Unmount(s, os, path) == Outcome(s, -1)
  {
    DataRootUnderData();
  }

  /**
   * Unmounting a volume whose mount point is not mounted succeeds; outside the
   * "/data" prefix it also changes nothing.
   */
  lemma UnmountAbsentSucceeds(s: State, os: Os, path: string)
    requires VolumeForPath(s.volumes, path).Some? && !IsDataMediaVolumePath(s.volumes, path)
    requires s.volumes[VolumeForPath(s.volumes, path).value].fsType != "ramdisk"
    requires os.scanOk
    requires s.volumes[VolumeForPath(s.volumes, path).value].mountPoint !in s.mounted
    ensures Unmount(s, os, path).ret == 0
    ensures !StartsWith(path, "/data") ==> Unmount(s, os, path) == Outcome(s, 0)
  {
    DataRootUnderData();
  }

  /**
   * With a datamedia volume in the table, every path under the raw "/data"
   * prefix is left mounted.
   */
  lemma UnmountDataProtected(s: State, os: Os, path: string)
    requires StartsWith(path, "/data") && IsDataMedia(s.volumes)
    ensures Unmount(s, os, path) == Outcome(s, 0)
  {
  }

  /** On a true-dual-boot device every path under the data root is left mounted. */
  lemma UnmountDataRootProtected(s: State, os: Os, path: string)
    requires StartsWith(path, DataRoot) && IsDualsystem(s.volumes) && os.trueDualboot
    ensures Unmount(s, os, path) == Outcome(s, 0)
  {
    DataRootUnderData();
  }

  /**
   * A "/data"-prefixed path on a dual-system device without datamedia takes the
   * mounted data root down first, unless true dual boot is on and not overridden;
   * the status is then that of the volume's own unmount.
   */
  lemma UnmountCoUnmountsDataRoot(s: State, os: Os, path: string)
    requires StartsWith(path, "/data") && IsDualsystem(s.volumes) && !IsDataMedia(s.volumes)
    requires !(StartsWith(path, DataRoot) && os.trueDualboot)
    requires !(os.trueDualboot && s.handleTrueDual == 0)
    requires VolumeForPath(s.volumes, path).Some?
    requires s.volumes[VolumeForPath(s.volumes, path).value].fsType != "ramdisk"
    requires os.scanOk && DataRoot in s.mounted
    ensures var r := Unmount(s, os, path);
      var mp := s.volumes[VolumeForPath(s.volumes, path).value].mountPoint;
      var s1 := UmountPoint(s, os, DataRoot).state;
      |r.state.log| > |s.log| && r.state.log[|s.log|] == Unmounted(DataRoot) &&
      r.ret == (if mp in s1.mounted then os.umountStatus(mp) else 0)
  {
    var s1 := UmountPoint(s, os, DataRoot).state;
    assert s1.log == s.log + [Unmounted(DataRoot)];
  }

  /**
   * Outside the "/data" prefix, a resolved volume whose mount point is mounted
   * is unmounted once, with the status umount gives.
   */
  lemma UnmountOrdinary(s: State, os: Os, path: string)
    requires !StartsWith(path, "/data")
    requires VolumeForPath(s.volumes, path).Some? && !IsDataMediaVolumePath(s.volumes, path)
    requires s.volumes[VolumeForPath(s.volumes, path).value].fsType != "ramdisk"
    requires os.scanOk && s.volumes[VolumeForPath(s.volumes, path).value].mountPoint in s.mounted
    ensures var mp := s.volumes[VolumeForPath(s.volumes, path).value].mountPoint;
      Unmount(s, os, path) == UmountPoint(s, os, mp) &&
      Unmount(s, os, path).ret == os.umountStatus(mp) &&
      Unmount(s, os, path).state.log == s.log + [Unmounted(mp)]
  {
    DataRootUnderData();
  }

  /**
   * Outside the two protected prefixes, an unknown path, or a failed scan of
   * the mounted volumes, fails the unmount with nothing done.
   */
  lemma UnmountUnresolvedOrScanFail(s: State, os: Os, path: string)
    requires !(StartsWith(path, "/data") && IsDataMedia(s.volumes))
    requires !(StartsWith(path, DataRoot) && IsDualsystem(s.volumes) && os.trueDualboot)
    requires VolumeForPath(s.volumes, path).None? ||
      (!IsDataMediaVolumePath(s.volumes, path) &&
       s.volumes[VolumeForPath(s.volumes, path).value].fsType != "ramdisk" && !os.scanOk)
    ensures Unmount(s, os, path) == Outcome(s, -1)
  {
  }

  /** Unmounting a datamedia path succeeds and changes nothing. */
  lemma UnmountDataMediaPath(s: State, os: Os, path: string)
    requires VolumeForPath(s.volumes, path).Some? && IsDataMediaVolumePath(s.volumes, path)
    ensures Unmount(s, os, path) == Outcome(s, 0)
  {
    var i := VolumeForPath(s.volumes, path).value;
    assert IsDataMedia(s.volumes) by {
      assert s.volumes[i].fsType == "datamedia";
    }
    assert Unmount(s, os, "/data") == Outcome(s, 0);
  }

  /**
   * Outside the "/data" prefix, once a volume mounted at most once has been
   * unmounted, unmounting it again succeeds and changes nothing.
   */
  lemma UnmountIdempotent(s: State, os: Os, path: string)
    requires !StartsWith(path, "/data")
    requires VolumeForPath(s.volumes, path).Some? && !IsDataMediaVolumePath(s.volumes, path)
    requires s.mounted[s.volumes[VolumeForPath(s.volumes, path).value].mountPoint] <= 1
    ensures Unmount(s, os, path).ret == 0 ==>
      Unmount(Unmount(s, os, path).state, os, path) == Outcome(Unmount(s, os, path).state, 0)
  {
    DataRootUnderData();
    var r := Unmount(s, os, path);
    if r.ret == 0 {
      var v := s.volumes[VolumeForPath(s.volumes, path).value];
      assert v.fsType != "ramdisk" && os.scanOk;
      assert r.state.volumes == s.volumes;
      assert v.mountPoint !in r.state.mounted;
      UnmountAbsentSucceeds(r.state, os, path);
    }
  }

  // ---------------------------------------------------------------------------
  // Format protections

  /** The ramdisk cannot be formatted. */
  lemma FormatRamdiskRefused(s: State, os: Os, path: string)
    requires !StartsWith(path, "/data")
    requires VolumeForPath(s.volumes, path).Some?
    requires s.volumes[VolumeForPath(s.volumes, path).value].fsType == "ramdisk"
    ensures Format(s, os, path) == Outcome(s, -1)
  {
  }

  /** A datamedia path is always delegated, whatever `handle_data_media` says. */
  lemma FormatDataMediaDelegated(s: State, os: Os, path: string)
    requires VolumeForPath(s.volumes, path).Some? && IsDataMediaVolumePath(s.volumes, path)
    ensures Format(s, os, path) == FormatUnknownDevice(s, os, None, path, None)
  {
  }

  /** A path under the raw "/data" prefix is delegated while its override is off. */
  lemma FormatProtectedDataDelegated(s: State, os: Os, path: string)
    requires VolumeForPath(s.volumes, path).Some?
    requires DataFormatDelegated(s, os, path)
    ensures Format(s, os, path) == FormatUnknownDevice(s, os, None, path, None)
  {
  }

  /** A path below a volume's mount point is delegated with the volume's device. */
  lemma FormatSubPathDelegated(s: State, os: Os, path: string)
    requires VolumeForPath(s.volumes, path).Some? && !IsDataMediaVolumePath(s.volumes, path)
    requires !DataFormatDelegated(s, os, path)
    requires s.volumes[VolumeForPath(s.volumes, path).value].fsType != "ramdisk"
    requires s.volumes[VolumeForPath(s.volumes, path).value].mountPoint != path
    ensures Format(s, os, path) ==
      FormatUnknownDevice(s, os, s.volumes[VolumeForPath(s.volumes, path).value].device, path, None)
  {
  }

  /** Formatting an unknown path fails with nothing done. */
  lemma FormatUnresolved(s: State, os: Os, path: string)
    requires VolumeForPath(s.volumes, path).None?
    ensures Format(s, os, path) == Outcome(s, -1)
  {
  }

  /**
   * A path naming a whole volume that is neither ramdisk nor datamedia, and
   * not delegated by the "/data" rules, is unmounted and formatted natively.
   */
  lemma FormatWholeVolume(s: State, os: Os, path: string)
    requires VolumeForPath(s.volumes, path).Some? && !IsDataMediaVolumePath(s.volumes, path)
    requires !DataFormatDelegated(s, os, path)
    requires s.volumes[VolumeForPath(s.volumes, path).value].fsType != "ramdisk"
    requires s.volumes[VolumeForPath(s.volumes, path).value].mountPoint == path
    ensures Format(s, os, path) == FormatWhole(s, os, path, s.volumes[VolumeForPath(s.volumes, path).value])
  {
  }

  /** A failed unmount aborts the format with -1; nothing but unmounts was done. */
  lemma FormatUnmountFailureAborts(s: State, os: Os, path: string)
    requires VolumeForPath(s.volumes, path).Some? && !IsDataMediaVolumePath(s.volumes, path)
    requires !DataFormatDelegated(s, os, path)
    requires s.volumes[VolumeForPath(s.volumes, path).value].fsType != "ramdisk"
    requires s.volumes[VolumeForPath(s.volumes, path).value].mountPoint == path
    requires Unmount(s, os, path).ret != 0
    ensures Format(s, os, path) == Outcome(Unmount(s, os, path).state, -1)
    ensures OnlyUnmountsAfter(Format(s, os, path).state.log, |s.log|)
  {
  }

  /**
   * An MTD erase or an ext4 build happens only on a whole volume and only after
   * its unmount succeeded: everything before it in the log is that unmount.
   */
  lemma FormatNativeAfterUnmount(s: State, os: Os, path: string)
    ensures var r := Format(s, os, path);
      NativeLast(s.log, r.state.log) ==>
        VolumeForPath(s.volumes, path).Some? &&
        s.volumes[VolumeForPath(s.volumes, path).value].mountPoint == path &&
        Unmount(s, os, path).ret == 0 &&
        Unmount(s, os, path).state.log + [r.state.log[|r.state.log| - 1]] == r.state.log
  {
    var r := Format(s, os, path);
    match VolumeForPath(s.volumes, path)
    case None =>
    case Some(i) =>
      var v := s.volumes[i];
      if IsDataMediaVolumePath(s.volumes, path) {
        assert r.state == Log(s, FormatUnknown(None, path, None));
      } else if StartsWith(path, "/data") && IsDataMedia(s.volumes) && s.handleDataMedia == 0 {
        assert r.state == Log(s, FormatUnknown(None, path, None));
      } else if StartsWith(path, "/data") && IsDualsystem(s.volumes) && os.trueDualboot && s.handleTrueDual == 0 {
        assert r.state == Log(s, FormatUnknown(None, path, None));
      } else if v.fsType == "ramdisk" {
        assert r.state == s;
      } else if v.mountPoint != path {
        assert r.state == Log(s, FormatUnknown(v.device, path, None));
      } else {
        assert r == FormatWhole(s, os, path, v);
        FormatWholeNative(s, os, path, v);
      }
  }

  /** The log grew and its last event erased an MTD partition or built ext4. */
  predicate NativeLast(before: seq<Event>, after: seq<Event>) {
    |after| > |before| && (after[|after| - 1].MtdErase? || after[|after| - 1].BuildExt4?)
  }

  /** The same for the unmount-then-format tail of `format_volume`. */
  lemma FormatWholeNative(s: State, os: Os, path: string, v: Volume)
    ensures var r := FormatWhole(s, os, path, v);
      NativeLast(s.log, r.state.log) ==>
        Unmount(s, os, path).ret == 0 &&
        Unmount(s, os, path).state.log + [r.state.log[|r.state.log| - 1]] == r.state.log
  {
    var u := Unmount(s, os, path);
    if u.ret != 0 {
      var r := FormatWhole(s, os, path, v);
      assert r.state.log == u.state.log;
      if |r.state.log| > |s.log| {
        assert r.state.log[|r.state.log| - 1].Unmounted?;
      }
    }
  }

  /**
   * After a successful unmount, `format_volume` dispatches on fs_type: MTD
   * erase for yaffs2 and mtd, make_ext4fs for ext4 (0 exactly when it
   * succeeds), `format_unknown_device` for the rest.
   */
  lemma FormatWholeDispatch(s: State, os: Os, path: string, v: Volume)
    requires Unmount(s, os, path).ret == 0
    ensures var u := Unmount(s, os, path);
      var r := FormatWhole(s, os, path, v);
      ((v.fsType == "yaffs2" || v.fsType == "mtd") ==> r == EraseMtd(u.state, os, v.device)) &&
      (v.fsType == "ext4" ==>
        r.state == Log(u.state, BuildExt4(v.device, v.length, path)) &&
        (r.ret == 0 <==> os.ext4Status(v.device, v.length, path) == 0)) &&
      (v.fsType !in {"yaffs2", "mtd", "ext4"} ==>
        r == FormatUnknownDevice(u.state, os, v.device, path, Some(v.fsType)))
  {
  }

  // ---------------------------------------------------------------------------
  // The dual-system activator

  /** A successful node replacement writes `stat` onto an existing node of the volume's device. */
  lemma ReplaceDeviceNodeSuccess(s: State, os: Os, vol: nat, stat: Stat)
    requires vol < |s.volumes|
    ensures var r := ReplaceDeviceNode(s, os, vol, stat);
      r.ret == 0 ==>
        s.volumes[vol].device.Some? && s.volumes[vol].device.value in s.nodes &&
        r.state.nodes == s.nodes[s.volumes[vol].device.value := stat]
  {
    var r := ReplaceDeviceNode(s, os, vol, stat);
    if r.ret == 0 {
      var u := Unmount(s, os, s.volumes[vol].mountPoint);
      var d := s.volumes[vol].device.value;
      assert u.state.nodes == s.nodes;
      assert (s.nodes - {d})[d := stat] == s.nodes[d := stat];
    }
  }

  /** A missing volume or an unsupported selector fails with nothing touched. */
  lemma HandleVolumeRequestRejects(s: State, os: Os, vol0: Option<nat>, vol1: Option<nat>, num: int)
    requires vol0.Some? ==> vol0.value < |s.volumes|
    requires vol1.Some? ==> vol1.value < |s.volumes|
    requires vol0.None? || vol1.None? || Selection(num).None?
    ensures HandleVolumeRequest(s, os, vol0, vol1, num) == Outcome(s, -1)
  {
  }

  /**
   * On success both generic nodes exist and now hold the snapshots the
   * selection table names for them.
   */
  lemma HandleVolumeRequestWrites(s: State, os: Os, i0: nat, i1: nat, num: int)
    requires i0 < |s.volumes| && i1 < |s.volumes|
    ensures var r := HandleVolumeRequest(s, os, Some(i0), Some(i1), num);
      r.ret == 0 ==>
        Selection(num).Some? &&
        s.volumes[i0].device.Some? && s.volumes[i1].device.Some? &&
        s.volumes[i0].device.value in s.nodes && s.volumes[i1].device.value in s.nodes &&
        r.state.nodes ==
          s.nodes[s.volumes[i0].device.value := ImageStat(s.volumes, i0, i1, Selection(num).value.0)]
                 [s.volumes[i1].device.value := ImageStat(s.volumes, i0, i1, Selection(num).value.1)]
  {
    var r := HandleVolumeRequest(s, os, Some(i0), Some(i1), num);
    if r.ret == 0 {
      var sel := Selection(num).value;
      var stat0 := ImageStat(s.volumes, i0, i1, sel.0);
      var stat1 := ImageStat(s.volumes, i0, i1, sel.1);
      var r0 := ReplaceDeviceNode(s, os, i0, stat0);
      ReplaceDeviceNodeSuccess(s, os, i0, stat0);
      ReplaceDeviceNodeSuccess(r0.state, os, i1, stat1);
      var d1 := s.volumes[i1].device.value;
      assert d1 in r0.state.nodes;
      assert d1 in s.nodes;
    }
  }

  /** INTERCHANGED writes each member's snapshot onto the other's node. */
  lemma InterchangedSwaps(s: State, os: Os, i0: nat, i1: nat)
    requires i0 < |s.volumes| && i1 < |s.volumes|
    ensures var r := HandleVolumeRequest(s, os, Some(i0), Some(i1), DualbootInterchanged);
      r.ret == 0 ==>
        r.state.nodes ==
          s.nodes[s.volumes[i0].device.value := s.volumes[i1].stat][s.volumes[i1].device.value := s.volumes[i0].stat]
  {
    HandleVolumeRequestWrites(s, os, i0, i1, DualbootInterchanged);
  }

  /**
   * The commit rule: the selected mode becomes `num` exactly when the final
   * /data unmount succeeds, whatever the three pairs returned; an unsupported
   * selector replaces no node and is still committed.
   */
  lemma ActivatorCommitRule(s: State, os: Os, num: int)
    ensures SetActiveSystem(s, os, num).ret == 0 <==> Unmount(PairsDone(s, os, num), os, "/data").ret == 0
    ensures Selection(num).None? ==>
      SetActiveSystem(s, os, num).state.nodes == s.nodes &&
      (SetActiveSystem(s, os, num).ret == 0 <==> Unmount(s, os, "/data").ret == 0) &&
      (Unmount(s, os, "/data").ret == 0 ==> SetActiveSystem(s, os, num).state.mode == num)
  {
    if Selection(num).None? {
      assert PairsDone(s, os, num) == s;
    }
  }
}
