/**
 * Properties of `load_volume_table` and `parse_options`: how a line's fields
 * are read, which lines are dropped, what each option key may change, and
 * when the dual-system /data line moves the device node and brings in the
 * /data1 entry.
 */
module FstabLemmas {
  import opened Wrappers
  import opened CStrings
  import opened CStringLemmas
  import opened Volumes
  import opened Fstab

  /** A field as it can appear in an fstab line: a `strtok` token without NUL. */
  predicate FieldText(t: string) {
    IsToken(t, FieldDelims) && forall i :: 0 <= i < |t| ==> t[i] != '\0'
  }

  /**
   * Reading a line written as space-separated fields: fewer than three fields
   * is malformed; otherwise the first three are mount point, fs_type and
   * device, and a fourth is device2 exactly when it starts with '/' (the fifth
   * is then the option list) and the option list otherwise.
   */
  lemma SplitJoinedLine(fields: seq<string>)
    requires 0 < |fields|
    requires forall k :: 0 <= k < |fields| ==> FieldText(fields[k])
    requires fields[0] != [] && !IsSpace(fields[0][0]) && fields[0][0] != '#'
    ensures SplitLine(Join(fields, ' ')).Malformed? <==> |fields| < 3
    ensures |fields| >= 3 ==>
      SplitLine(Join(fields, ' ')).Entry? &&
      SplitLine(Join(fields, ' ')).mountPoint == fields[0] &&
      SplitLine(Join(fields, ' ')).fsType == fields[1] &&
      SplitLine(Join(fields, ' ')).device == fields[2]
    ensures |fields| == 3 ==>
      SplitLine(Join(fields, ' ')).device2 == None && SplitLine(Join(fields, ' ')).options == None
    ensures |fields| >= 4 && StartsWith(fields[3], "/") ==>
      SplitLine(Join(fields, ' ')).device2 == Some(fields[3]) &&
      SplitLine(Join(fields, ' ')).options == (if |fields| > 4 then Some(fields[4]) else None)
    ensures |fields| >= 4 && !StartsWith(fields[3], "/") ==>
      SplitLine(Join(fields, ' ')).device2 == None && SplitLine(Join(fields, ' ')).options == Some(fields[3])
  {
    SplitLineOfJoin(fields);
  }

  /** The newline `fgets` leaves at the end of a line changes nothing in how it reads. */
  lemma SplitNewlineTerminated(fields: seq<string>)
    requires 0 < |fields|
    requires forall k :: 0 <= k < |fields| ==> FieldText(fields[k])
    requires fields[0] != [] && !IsSpace(fields[0][0]) && fields[0][0] != '#'
    ensures SplitLine(Join(fields, ' ') + ['\n']) == SplitLine(Join(fields, ' '))
  {
    SplitLineOfJoin(fields);
    NewlineLineReads(fields);
    var t := Tokens(SkipSpace(CStr(Join(fields, ' ') + ['\n'])), FieldDelims);
    assert t == fields;
    if |fields| >= 4 {
      assert FieldText(fields[3]);
      SlashLeads(fields[3]);
    }
  }

  /** What the loader sees of a newline-terminated line written from fields. */
  lemma NewlineLineReads(fields: seq<string>)
    requires 0 < |fields|
    requires forall k :: 0 <= k < |fields| ==> FieldText(fields[k])
    requires fields[0] != [] && !IsSpace(fields[0][0]) && fields[0][0] != '#'
    ensures SkipSpace(CStr(Join(fields, ' ') + ['\n'])) == Join(fields, ' ') + ['\n']
    ensures Tokens(Join(fields, ' ') + ['\n'], FieldDelims) == fields
  {
    JoinedLineReads(fields);
    var line := Join(fields, ' ');
    JoinNulFree(fields, ' ');
    var buffer := line + ['\n'];
    forall i | 0 <= i < |buffer|
      ensures buffer[i] != '\0'
    {
      if i < |line| {
        assert buffer[i] == line[i];
      }
    }
    CStrWhole(buffer);
    assert buffer[0] == line[0];
    assert SpaceRun(buffer) == 0;
    TokensSnocDelim(line, '\n', FieldDelims);
  }

  /** The line a list of fields reads as, by the same rule. */
  function FieldsLine(fields: seq<string>): Line
  {
    if |fields| < 3 then Malformed
    else if |fields| == 3 then Entry(fields[0], fields[1], fields[2], None, None)
    else if StartsWith(fields[3], "/") then
      Entry(fields[0], fields[1], fields[2], Some(fields[3]), if |fields| > 4 then Some(fields[4]) else None)
    else Entry(fields[0], fields[1], fields[2], None, Some(fields[3]))
  }

  /** Splitting a joined line gives back the line of its fields. */
  lemma SplitLineOfJoin(fields: seq<string>)
    requires 0 < |fields|
    requires forall k :: 0 <= k < |fields| ==> FieldText(fields[k])
    requires fields[0] != [] && !IsSpace(fields[0][0]) && fields[0][0] != '#'
    ensures SplitLine(Join(fields, ' ')) == FieldsLine(fields)
  {
    JoinedLineReads(fields);
    LineOfFieldsReads(Join(fields, ' '), fields);
  }

  /** A line the loader sees whole, not a comment, and whose tokens are the fields, reads as those fields. */
  lemma LineOfFieldsReads(line: string, fields: seq<string>)
    requires forall k :: 0 <= k < |fields| ==> FieldText(fields[k])
    requires SkipSpace(CStr(line)) == line && line != [] && line[0] != '#'
    requires Tokens(line, FieldDelims) == fields
    ensures SplitLine(line) == FieldsLine(fields)
  {
    var t := Tokens(SkipSpace(CStr(line)), FieldDelims);
    assert t == fields;
    if |fields| >= 4 {
      assert FieldText(fields[3]);
      SlashLeads(fields[3]);
    }
  }

  /** A non-empty field starts with "/" exactly when its first character is '/'. */
  lemma SlashLeads(f: string)
    requires f != []
    ensures StartsWith(f, "/") <==> f[0] == '/'
  {
    if f[0] == '/' {
      assert f[..1] == "/";
    }
  }

  /** What the loader sees of a line written from fields: the line itself, and the fields as tokens. */
  lemma JoinedLineReads(fields: seq<string>)
    requires 0 < |fields|
    requires forall k :: 0 <= k < |fields| ==> FieldText(fields[k])
    requires fields[0] != [] && !IsSpace(fields[0][0]) && fields[0][0] != '#'
    ensures SkipSpace(CStr(Join(fields, ' '))) == Join(fields, ' ')
    ensures Join(fields, ' ') != [] && Join(fields, ' ')[0] != '#'
    ensures Tokens(Join(fields, ' '), FieldDelims) == fields
  {
    var line := Join(fields, ' ');
    JoinNulFree(fields, ' ');
    CStrWhole(line);
    assert SpaceRun(line) == 0;
    TokensOfJoin(fields, ' ', FieldDelims);
  }

  /** Fields separated by any runs of blanks, tabs or newlines read as the same line as single-spaced ones. */
  lemma SplitLineOfRuns(fields: seq<string>, gaps: seq<string>)
    requires 0 < |fields| && |gaps| == |fields| - 1
    requires forall k :: 0 <= k < |fields| ==> FieldText(fields[k])
    requires forall k :: 0 <= k < |gaps| ==> IsGap(gaps[k], FieldDelims)
    requires fields[0] != [] && !IsSpace(fields[0][0]) && fields[0][0] != '#'
    ensures SplitLine(JoinRuns(fields, gaps)) == FieldsLine(fields)
  {
    RunsLineReads(fields, gaps);
    LineOfFieldsReads(JoinRuns(fields, gaps), fields);
  }

  /** What the loader sees of a line written from fields and gaps: the line itself, and the fields as tokens. */
  lemma RunsLineReads(fields: seq<string>, gaps: seq<string>)
    requires 0 < |fields| && |gaps| == |fields| - 1
    requires forall k :: 0 <= k < |fields| ==> FieldText(fields[k])
    requires forall k :: 0 <= k < |gaps| ==> IsGap(gaps[k], FieldDelims)
    requires fields[0] != [] && !IsSpace(fields[0][0]) && fields[0][0] != '#'
    ensures SkipSpace(CStr(JoinRuns(fields, gaps))) == JoinRuns(fields, gaps)
    ensures JoinRuns(fields, gaps) != [] && JoinRuns(fields, gaps)[0] != '#'
    ensures Tokens(JoinRuns(fields, gaps), FieldDelims) == fields
  {
    var line := JoinRuns(fields, gaps);
    forall k, i | 0 <= k < |gaps| && 0 <= i < |gaps[k]|
      ensures gaps[k][i] != '\0'
    {
      assert IsGap(gaps[k], FieldDelims);
      assert gaps[k][i] in FieldDelims;
    }
    JoinRunsNulFree(fields, gaps);
    CStrWhole(line);
    assert SpaceRun(line) == 0;
    TokensOfRuns(fields, gaps, FieldDelims);
  }

  /** Blank lines, and lines whose first non-blank character is '#', are skipped. */
  lemma BlankOrCommentSkipped(spaces: string, rest: string)
    requires forall i :: 0 <= i < |spaces| ==> IsSpace(spaces[i])
    ensures SplitLine(spaces) == Skipped
    ensures SplitLine(spaces + ['#'] + rest) == Skipped
  {
    BlankLineReads(spaces);
    CommentLineReads(spaces, rest);
  }

  /** A blank buffer reads as the empty line. */
  lemma BlankLineReads(spaces: string)
    requires forall i :: 0 <= i < |spaces| ==> IsSpace(spaces[i])
    ensures SkipSpace(CStr(spaces)) == []
  {
    CStrWhole(spaces);
    SpaceRunAppend(spaces, []);
    assert spaces + [] == spaces;
  }

  /** A buffer with '#' after white space reads as a line starting with '#'. */
  lemma CommentLineReads(spaces: string, rest: string)
    requires forall i :: 0 <= i < |spaces| ==> IsSpace(spaces[i])
    ensures var s := SkipSpace(CStr(spaces + ['#'] + rest)); s != [] && s[0] == '#'
  {
    var h := ['#'] + CStr(rest);
    CommentBufferCut(spaces, rest);
    SpaceRunAppend(spaces, h);
    assert SpaceRun(h) == 0;
    assert SkipSpace(h) == h;
  }

  /** The NUL cut keeps the white space and the '#' in front of the rest. */
  lemma CommentBufferCut(spaces: string, rest: string)
    requires forall i :: 0 <= i < |spaces| ==> IsSpace(spaces[i])
    ensures CStr(spaces + ['#'] + rest) == spaces + (['#'] + CStr(rest))
  {
    var t := ['#'] + rest;
    assert spaces + ['#'] + rest == spaces + t;
    CStrAppend(spaces, t);
    CStrAppend(['#'], rest);
  }

  /** Loading two runs of lines is loading the first, then the second. */
  lemma {:induction false} LoadLinesAppend(ld: Loader, xs: seq<string>, ys: seq<string>)
    ensures LoadLines(ld, xs + ys) == LoadLines(LoadLines(ld, xs), ys)
    decreases |xs|
  {
    if xs == [] {
      assert xs + ys == ys;
    } else {
      assert (xs + ys)[0] == xs[0] && (xs + ys)[1..] == xs[1..] + ys;
      LoadLinesAppend(LoadLine(ld, xs[0]), xs[1..], ys);
    }
  }

  /** A skipped or malformed line can be deleted from the fstab without effect. */
  lemma IgnoredLineAddsNothing(ld: Loader, xs: seq<string>, b: string, ys: seq<string>)
    requires SplitLine(b).Skipped? || SplitLine(b).Malformed?
    ensures LoadLines(ld, xs + [b] + ys) == LoadLines(ld, xs + ys)
  {
    LoadLinesAppend(ld, xs + [b], ys);
    LoadLinesAppend(ld, xs, [b]);
    LoadLinesAppend(ld, xs, ys);
    assert [b][1..] == [];
  }

  /**
   * Each option key changes only its own field: putting back the old value of
   * that field gives the volume back. `fstype2=` makes its value the primary
   * fs_type and demotes the old fs_type to fs_type2.
   */
  lemma OptionFrame(o: string, v: Volume)
    ensures StartsWith(o, "length=") ==>
      ApplyOption(o, v).value.(length := v.length) == v && ApplyOption(o, v).value.length == StrToLL(o[7..])
    ensures StartsWith(o, "fs_options=") ==>
      ApplyOption(o, v).value.(fsOptions := v.fsOptions) == v && ApplyOption(o, v).value.fsOptions == Some(o[11..])
    ensures StartsWith(o, "fs_options2=") ==>
      ApplyOption(o, v).value.(fsOptions2 := v.fsOptions2) == v && ApplyOption(o, v).value.fsOptions2 == Some(o[12..])
    ensures StartsWith(o, "lun=") ==>
      ApplyOption(o, v).value.(lun := v.lun) == v && ApplyOption(o, v).value.lun == Some(o[4..])
    ensures StartsWith(o, "fstype2=") ==>
      ApplyOption(o, v).value.(fsType := v.fsType, fsType2 := v.fsType2) == v &&
      ApplyOption(o, v).value.fsType == o[8..] && ApplyOption(o, v).value.fsType2 == Some(v.fsType)
  {
    if StartsWith(o, "fstype2=") { Fstype2Option(o, v); }
    if StartsWith(o, "fs_options=") { FsOptionsOption(o, v); }
    if StartsWith(o, "fs_options2=") { FsOptions2Option(o, v); }
    if StartsWith(o, "lun=") { LunOption(o, v); }
  }

  // The keys exclude one another: each lemma below names the characters of
  // the option that rule out the keys tested before its own.

  lemma Fstype2Option(o: string, v: Volume)
    requires StartsWith(o, "fstype2=")
    ensures ApplyOption(o, v) == Some(v.(fsType2 := Some(v.fsType), fsType := o[8..]))
  {
    assert o[..8][0] == o[0] == 'f';
  }

  lemma FsOptionsOption(o: string, v: Volume)
    requires StartsWith(o, "fs_options=")
    ensures ApplyOption(o, v) == Some(v.(fsOptions := Some(o[11..])))
  {
    assert o[..11][0] == o[0] == 'f' && o[..11][2] == o[2] == '_';
  }

  lemma FsOptions2Option(o: string, v: Volume)
    requires StartsWith(o, "fs_options2=")
    ensures ApplyOption(o, v) == Some(v.(fsOptions2 := Some(o[12..])))
  {
    assert o[..12][0] == o[0] == 'f' && o[..12][2] == o[2] == '_' && o[..12][10] == o[10] == '2';
  }

  lemma LunOption(o: string, v: Volume)
    requires StartsWith(o, "lun=")
    ensures ApplyOption(o, v) == Some(v.(lun := Some(o[4..])))
  {
    assert o[..4][0] == o[0] == 'l' && o[..4][1] == o[1] == 'u';
  }

  /** A line with an unrecognised option key leaves the table as it was. */
  lemma UnknownOptionDropsLine(ld: Loader, b: string, k: nat)
    requires SplitLine(b).Entry?
    requires k < |OptionTokens(SplitLine(b).options)| && !KnownOption(OptionTokens(SplitLine(b).options)[k])
    ensures LoadLine(ld, b).table == ld.table
  {
    var line := SplitLine(b);
    var moving := IsDualsystem(ld.table) && line.mountPoint == "/data";
    var nodes := if moving then RenameNode(ld.nodes, line.device, MovedUserdata) else ld.nodes;
    var device := if moving then MovedUserdata else line.device;
  }

  /** Appending an entry adds /system1 to the table exactly when it is that entry. */
  lemma IsDualsystemSnoc(t: seq<Volume>, v: Volume)
    ensures IsDualsystem(t + [v]) <==> IsDualsystem(t) || v.mountPoint == "/system1"
  {
    if IsDualsystem(t) {
      var i :| 0 <= i < |t| && t[i].mountPoint == "/system1";
      assert (t + [v])[i] == t[i];
    }
    if v.mountPoint == "/system1" {
      assert (t + [v])[|t|] == v;
    }
    if IsDualsystem(t + [v]) {
      var i :| 0 <= i < |t + [v]| && (t + [v])[i].mountPoint == "/system1";
      if i < |t| {
        assert t[i] == (t + [v])[i];
      }
    }
  }

  /**
   * An accepted /data line when /system1 is already in the table: the node is
   * moved to /dev/userdata_moved (keeping its snapshot), the entry's device is
   * the moved node, and the /data1 bind entry follows immediately.
   */
  lemma DataLineOnDualTable(ld: Loader, b: string)
    requires SplitLine(b).Entry? && SplitLine(b).mountPoint == "/data"
    requires forall k :: 0 <= k < |OptionTokens(SplitLine(b).options)| ==> KnownOption(OptionTokens(SplitLine(b).options)[k])
    requires IsDualsystem(ld.table)
    ensures var r, n := LoadLine(ld, b), |ld.table|;
      |r.table| == n + 2 && r.table[..n] == ld.table &&
      r.table[n].mountPoint == "/data" && r.table[n].device == Some(MovedUserdata) &&
      r.table[n + 1] == Data1Volume &&
      r.nodes == RenameNode(ld.nodes, SplitLine(b).device, MovedUserdata) &&
      (SplitLine(b).device in ld.nodes ==> r.table[n].stat == ld.nodes[SplitLine(b).device])
  {
    var line := SplitLine(b);
    var nodes := RenameNode(ld.nodes, line.device, MovedUserdata);
    var base := BaseVolume(line.mountPoint, line.fsType, MovedUserdata, line.device2, StatOf(nodes, MovedUserdata));
    var v := ApplyOptions(OptionTokens(line.options), base).value;
    IsDualsystemSnoc(ld.table, v);
    assert (ld.table + [v] + [Data1Volume])[..|ld.table|] == ld.table;
  }

  /**
   * An accepted /data line before any /system1 entry: one entry on the line's
   * own device, no node moved and no /data1 entry.
   */
  lemma DataLineOnSingleTable(ld: Loader, b: string)
    requires SplitLine(b).Entry? && SplitLine(b).mountPoint == "/data"
    requires forall k :: 0 <= k < |OptionTokens(SplitLine(b).options)| ==> KnownOption(OptionTokens(SplitLine(b).options)[k])
    requires !IsDualsystem(ld.table)
    ensures var r, n := LoadLine(ld, b), |ld.table|;
      |r.table| == n + 1 && r.table[..n] == ld.table &&
      r.table[n].mountPoint == "/data" && r.table[n].device == Some(SplitLine(b).device) &&
      r.nodes == ld.nodes
  {
    var line := SplitLine(b);
    var base := BaseVolume(line.mountPoint, line.fsType, line.device, line.device2, StatOf(ld.nodes, line.device));
    var v := ApplyOptions(OptionTokens(line.options), base).value;
    IsDualsystemSnoc(ld.table, v);
    assert (ld.table + [v])[..|ld.table|] == ld.table;
  }

  /** Any other line touches no node and adds at most its own entry. */
  lemma OtherLineAddsOneEntry(ld: Loader, b: string)
    requires !(SplitLine(b).Entry? && SplitLine(b).mountPoint == "/data")
    ensures var r, n := LoadLine(ld, b), |ld.table|;
      r.nodes == ld.nodes && n <= |r.table| <= n + 1 && r.table[..n] == ld.table
    ensures var r, n, line := LoadLine(ld, b), |ld.table|, SplitLine(b);
      line.Entry? ==>
        (|r.table| == n + 1 <==> forall k :: 0 <= k < |OptionTokens(line.options)| ==> KnownOption(OptionTokens(line.options)[k])) &&
        (|r.table| == n + 1 ==>
          r.table[n].mountPoint == line.mountPoint && r.table[n].device == Some(line.device) &&
          r.table[n].device2 == line.device2 && r.table[n].stat == StatOf(ld.nodes, line.device))
  {
    OtherFieldsAddOneEntry(ld, SplitLine(b));
  }

  /** The same, once the line's fields are read. */
  lemma OtherFieldsAddOneEntry(ld: Loader, line: Line)
    requires !(line.Entry? && line.mountPoint == "/data")
    ensures var r, n := LoadFields(ld, line), |ld.table|;
      r.nodes == ld.nodes && n <= |r.table| <= n + 1 && r.table[..n] == ld.table
    ensures var r, n := LoadFields(ld, line), |ld.table|;
      line.Entry? ==>
        (|r.table| == n + 1 <==> forall k :: 0 <= k < |OptionTokens(line.options)| ==> KnownOption(OptionTokens(line.options)[k])) &&
        (|r.table| == n + 1 ==>
          r.table[n].mountPoint == line.mountPoint && r.table[n].device == Some(line.device) &&
          r.table[n].device2 == line.device2 && r.table[n].stat == StatOf(ld.nodes, line.device))
  {
    var r := LoadFields(ld, line);
    assert r.table[..|ld.table|] == ld.table;
  }
}
