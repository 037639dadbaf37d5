/**
 * `load_volume_table` as a specification: how one buffer returned by `fgets`
 * is split into fields, and how each accepted line extends the table (and, on
 * a dual-system device, moves the /data device node).
 */
module Fstab {
  import opened Wrappers
  import opened CStrings
  import opened Volumes

  /** The delimiters the loader hands to `strtok`. */
  const FieldDelims: set<char> := {' ', '\t', '\n'}

  /** What the loader makes of one buffer before it touches the table. */
  datatype Line =
    | Skipped                      // blank, or '#' after leading white space
    | Malformed                    // fewer than three fields
    | Entry(mountPoint: string, fsType: string, device: string,
            device2: Option<string>, options: Option<string>)

  /**
   * Fields of a line: mount point, fs_type and device; a fourth field is device2
   * when it starts with '/' (the fifth field is then the option list) and the
   * option list otherwise. Later fields are ignored.
   */
  function SplitLine(buffer: string): (r: Line)
    ensures r.Entry? ==>
      IsToken(r.mountPoint, FieldDelims) && IsToken(r.fsType, FieldDelims) && IsToken(r.device, FieldDelims)
    ensures r.Entry? && r.device2.Some? ==> IsToken(r.device2.value, FieldDelims) && r.device2.value[0] == '/'
    ensures r.Entry? && r.options.Some? ==> IsToken(r.options.value, FieldDelims)
    ensures r.Entry? && r.device2.None? && r.options.Some? ==> r.options.value[0] != '/'
  {
    var s := SkipSpace(CStr(buffer));
    if s == [] || s[0] == '#' then Skipped
    else
      var t := Tokens(s, FieldDelims);
      if |t| < 3 then Malformed
      else if |t| == 3 then Entry(t[0], t[1], t[2], None, None)
      else if t[3][0] == '/' then Entry(t[0], t[1], t[2], Some(t[3]), if |t| > 4 then Some(t[4]) else None)
      else Entry(t[0], t[1], t[2], None, Some(t[3]))
  }

  /** The loader's state: the table so far and the device nodes it may move. */
  datatype Loader = Loader(table: seq<Volume>, nodes: map<string, Stat>)

  /** `rename(from, to)` on the device-node map; a missing source leaves it unchanged. */
  function RenameNode(nodes: map<string, Stat>, from: string, to: string): (r: map<string, Stat>)
    ensures from in nodes ==> to in r && r[to] == nodes[from]
    ensures from in nodes && from != to ==> from !in r
    ensures from !in nodes ==> r == nodes
    ensures forall p :: p in nodes && p != from && p != to ==> p in r && r[p] == nodes[p]
    ensures forall p :: p in r ==> p in nodes || p == to
  {
    if from in nodes then (nodes - {from})[to := nodes[from]] else nodes
  }

  /** `stat(path)`: the node's snapshot, unfilled when the node does not exist. */
  function StatOf(nodes: map<string, Stat>, path: string): Stat
  {
    if path in nodes then nodes[path] else Uninitialised
  }

  /** The entry a line's fields give before its options are parsed. */
  function BaseVolume(mountPoint: string, fsType: string, device: string, device2: Option<string>, stat: Stat): Volume
  {
    Volume(mountPoint, fsType, Some(device), device2, None, None, None, None, 0, stat)
  }

  /** One iteration of the loader's `while (fgets ...)` loop. */
  function LoadLine(ld: Loader, buffer: string): Loader
  {
    LoadFields(ld, SplitLine(buffer))
  }

  /** The loop body once the line's fields are read. */
  function LoadFields(ld: Loader, line: Line): (r: Loader)
    ensures ld.table <= r.table && |r.table| <= |ld.table| + 2
    ensures !line.Entry? ==> r == ld
  {
    match line
    case Skipped => ld
    case Malformed => ld
    case Entry(mp, fs, dev, dev2, opts) =>
      var moving := IsDualsystem(ld.table) && mp == "/data";
      var nodes := if moving then RenameNode(ld.nodes, dev, MovedUserdata) else ld.nodes;
      var device := if moving then MovedUserdata else dev;
      var base := BaseVolume(mp, fs, device, dev2, StatOf(nodes, device));
      match ApplyOptions(OptionTokens(opts), base)
      case None => Loader(ld.table, nodes)
      case Some(v) =>
        var table := ld.table + [v];
        if IsDualsystem(table) && mp == "/data" then Loader(table + [Data1Volume], nodes)
        else Loader(table, nodes)
  }

  /** The loader loop over the buffers `fgets` returns, in order. */
  function LoadLines(ld: Loader, buffers: seq<string>): (r: Loader)
    ensures ld.table <= r.table
    decreases |buffers|
  {
    if buffers == [] then ld else LoadLines(LoadLine(ld, buffers[0]), buffers[1..])
  }

  /**
   * `load_volume_table`: the /tmp ramdisk entry, then every accepted line of
   * the fstab; an fstab that cannot be opened (`None`) leaves only /tmp.
   */
  function LoadVolumeTable(nodes: map<string, Stat>, fstab: Option<seq<string>>): (r: Loader)
    ensures |r.table| >= 1 && r.table[0] == TmpVolume
    ensures r.table[0].mountPoint == "/tmp" && r.table[0].fsType == "ramdisk" && r.table[0].device.None?
    ensures fstab.None? ==> r == Loader([TmpVolume], nodes)
  {
    var init := Loader([TmpVolume], nodes);
    if fstab.None? then init else LoadLines(init, fstab.value)
  }
}
