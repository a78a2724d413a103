/** What the generated table means: one line per device in document order, each line
    reading back as the six derived columns, advisories only for reserved-block
    percentages and never changing the lines, the text splitting back into the lines,
    and a run over a malformed record stopping at it without writing. */
module FstabProperties {
  import opened Wrappers
  import opened Text
  import opened Config
  import opened Fstab

  // ---------------------------------------------------------------------------
  // Lines: one per device, in document order.

  /** Over well-formed devices, line `i` is the line of device `i`. */
  lemma {:induction false} GenerateLines(ds: seq<DeviceEntry>)
    requires AllWellFormed(ds)
    ensures Generate(ds).failure.None?
    ensures |Generate(ds).lines| == |ds|
    ensures forall i :: 0 <= i < |ds| ==>
      Generate(ds).lines[i] == FormatLine(BuildRecord(ds[i].0, ds[i].1).value)
  {
    if |ds| > 0 {
      AllWellFormedAppend([ds[0]], ds[1..]);
      assert [ds[0]] + ds[1..] == ds;
      GenerateLines(ds[1..]);
      WellFormedHead(ds);
      LinesCons(ds, Generate(ds).lines, Generate(ds[1..]).lines);
    }
  }

  /** The first device's line in front of the lines of the other devices is the list
      of every device's line. */
  lemma LinesCons(ds: seq<DeviceEntry>, lines: seq<string>, rest: seq<string>)
    requires |ds| > 0 && AllWellFormed(ds)
    requires |rest| == |ds| - 1
    requires forall i :: 0 <= i < |rest| ==> rest[i] == FormatLine(BuildRecord(ds[1..][i].0, ds[1..][i].1).value)
    requires lines == [FormatLine(BuildRecord(ds[0].0, ds[0].1).value)] + rest
    ensures |lines| == |ds|
    ensures forall i :: 0 <= i < |ds| ==> lines[i] == FormatLine(BuildRecord(ds[i].0, ds[i].1).value)
  {
    forall i | 1 <= i < |ds|
      ensures lines[i] == FormatLine(BuildRecord(ds[i].0, ds[i].1).value)
    {
      assert lines[i] == rest[i - 1];
      assert ds[i] == ds[1..][i - 1];
    }
  }

  /** A well-formed first device contributes its line ahead of the rest's lines. */
  lemma WellFormedHead(ds: seq<DeviceEntry>)
    requires |ds| > 0 && DeviceWellFormed(ds[0].1)
    ensures Generate(ds).lines == [FormatLine(BuildRecord(ds[0].0, ds[0].1).value)] + Generate(ds[1..]).lines
    ensures Generate(ds).failure == Generate(ds[1..]).failure
  {
  }

  /** A well-formed document is written, as exactly one line per device: the device
      `k` of group `g` gives the line right after the lines of all earlier groups. */
  lemma LinesFollowDocument(doc: Document, g: nat, k: nat)
    requires WellFormed(doc)
    requires g < |doc| && k < |doc[g].1|
    ensures Populate(doc).written == Success(Serialize(Generate(Flatten(doc)).lines))
    ensures |Generate(Flatten(doc)).lines| == TotalDevices(doc)
    ensures TotalDevices(doc[..g]) + k < TotalDevices(doc)
    ensures Generate(Flatten(doc)).lines[TotalDevices(doc[..g]) + k]
      == FormatLine(BuildRecord(doc[g].1[k].0, doc[g].1[k].1).value)
  {
    WellFormedFlatten(doc);
    GenerateLines(Flatten(doc));
    FlattenPosition(doc, g, k);
  }

  /** A well-formed document is written as its lines, one per device, and one with no
      devices at all is written as a single newline. */
  lemma DocumentWritten(doc: Document)
    requires WellFormed(doc)
    ensures Populate(doc).written == Success(Serialize(Generate(Flatten(doc)).lines))
    ensures |Generate(Flatten(doc)).lines| == TotalDevices(doc)
    ensures TotalDevices(doc) == 0 ==> Populate(doc).written == Success("\n")
  {
    WellFormedFlatten(doc);
    GenerateLines(Flatten(doc));
  }

  /** A document without devices, whatever its groups, is written as one newline. */
  lemma EmptyDocumentWritten(doc: Document)
    requires TotalDevices(doc) == 0
    ensures Populate(doc).written == Success("\n")
    ensures Populate(doc).advisories == []
  {
    WellFormedFlatten(doc);
    DocumentWritten(doc);
  }

  /** The text is written exactly when every device of every group is well formed. */
  lemma WrittenIffWellFormed(doc: Document)
    ensures Populate(doc).written.Success? <==> WellFormed(doc)
  {
    WellFormedFlatten(doc);
    GenerateSucceedsIff(Flatten(doc));
  }

  // ---------------------------------------------------------------------------
  // The columns of a line.

  // The two expected columns below are spelled with the literals `"nfs"` and
  // `"defaults"` rather than the builder's constants; what `LineColumns` adds beyond
  // them is the read-back of the line, and the options column is taken apart
  // independently by `OptionsColumnSplits`.

  /** The expected device column: `id:export` for an `nfs` record, the bare id otherwise. */
  function ExpectedDevice(id: string, d: Device): string
    requires DeviceWellFormed(d)
  {
    if d.fsType.value == "nfs" then id + ":" + d.exportPath.value else id
  }

  /** The expected options column: exactly `defaults` without an `options` key, and
      `defaults,` followed by the comma-joined options with one. */
  function ExpectedOptions(d: Device): string
  {
    if d.options.None? then "defaults" else "defaults," + Join(",", d.options.value)
  }

  /** Each column the record supplies is a single non-empty, whitespace-free word. */
  predicate ColumnsAreWords(id: string, d: Device)
  {
    && IsWord(id)
    && (d.mount.Some? ==> IsWord(d.mount.value))
    && (d.fsType.Some? ==> IsWord(d.fsType.value))
    && (d.exportPath.Some? ==> Unbroken(d.exportPath.value))
    && (d.options.Some? ==> forall i :: 0 <= i < |d.options.value| ==> Unbroken(d.options.value[i]))
    && (d.dump.Some? ==> IsWord(d.dump.value))
    && (d.fsck.Some? ==> IsWord(d.fsck.value))
  }

  /** A line whose six columns are words reads back as exactly those six columns. */
  lemma FormatLineWords(rec: TableRecord)
    requires forall i :: 0 <= i < |Columns(rec)| ==> IsWord(Columns(rec)[i])
    ensures Words(FormatLine(rec)) == Columns(rec)
  {
    WordsJoin(Separator, Columns(rec));
  }

  /** The exact text of a line: the six columns in order, two spaces between
      neighbours, for any column values. */
  lemma LineText(device: string, mount: string, fsType: string, options: string, dump: string, fsck: string)
    ensures FormatLine(TableRecord(device, mount, fsType, options, dump, fsck))
      == device + "  " + (mount + "  " + (fsType + "  " + (options + "  " + (dump + "  " + fsck))))
  {
    var S := Separator;
    JoinCons(S, dump, [fsck]);
    JoinCons(S, options, [dump, fsck]);
    JoinCons(S, fsType, [options, dump, fsck]);
    JoinCons(S, mount, [fsType, options, dump, fsck]);
    JoinCons(S, device, [mount, fsType, options, dump, fsck]);
  }

  /** Read back by splitting on whitespace, a device's line gives exactly six columns:
      the device (with `:export` for `nfs`, unchanged otherwise), the mount point and
      type verbatim, the options column, and dump and fsck (copied when given, `0`
      otherwise). */
  lemma LineColumns(id: string, d: Device)
    requires DeviceWellFormed(d)
    requires ColumnsAreWords(id, d)
    ensures Words(FormatLine(BuildRecord(id, d).value)) == [
      ExpectedDevice(id, d),
      d.mount.value,
      d.fsType.value,
      ExpectedOptions(d),
      if d.dump.Some? then d.dump.value else "0",
      if d.fsck.Some? then d.fsck.value else "0"]
  {
    var rec := BuildRecord(id, d).value;
    assert rec.device == ExpectedDevice(id, d);
    assert rec.options == ExpectedOptions(d);
    RecordColumnsAreWords(id, d);
    FormatLineWords(rec);
  }

  /** The columns built from a record whose values are words are words themselves. */
  lemma RecordColumnsAreWords(id: string, d: Device)
    requires DeviceWellFormed(d)
    requires ColumnsAreWords(id, d)
    ensures forall i :: 0 <= i < |Columns(BuildRecord(id, d).value)| ==> IsWord(Columns(BuildRecord(id, d).value)[i])
  {
    var rec := BuildRecord(id, d).value;
    DeviceColumnIsWord(id, d);
    OptionsColumnIsWord(d);
    assert rec.device == ExpectedDevice(id, d);
    assert rec.options == ExpectedOptions(d);
    assert Columns(rec) == [rec.device, d.mount.value, d.fsType.value, rec.options, rec.dump, rec.fsck];
  }

  /** The device column of a record whose values are words is a word. */
  lemma DeviceColumnIsWord(id: string, d: Device)
    requires DeviceWellFormed(d)
    requires ColumnsAreWords(id, d)
    ensures IsWord(ExpectedDevice(id, d))
  {
    if d.fsType.value == "nfs" {
      UnbrokenConcat(id, ":");
      UnbrokenConcat(id + ":", d.exportPath.value);
    }
  }

  /** The options column of a record whose options are whitespace-free is a word. */
  lemma OptionsColumnIsWord(d: Device)
    requires d.options.Some? ==> forall i :: 0 <= i < |d.options.value| ==> Unbroken(d.options.value[i])
    ensures IsWord(ExpectedOptions(d))
  {
    assert IsWord("defaults");
    if d.options.Some? {
      JoinUnbroken(",", d.options.value);
      UnbrokenConcat("defaults,", Join(",", d.options.value));
    }
  }

  /** The `export` key only matters for `nfs` records: for any other type, removing,
      adding or changing it leaves the device's line, or its error, unchanged. */
  lemma ExportIgnoredUnlessNfs(id: string, d: Device, other: Option<string>)
    requires d.fsType != Some(NfsType)
    ensures BuildRecord(id, d) == BuildRecord(id, d.(exportPath := other))
  {
  }

  /** The options column splits at commas into `defaults` followed by the options in
      order; an empty `options` list leaves one empty option after `defaults,`. */
  lemma OptionsColumnSplits(opts: seq<string>)
    requires forall i :: 0 <= i < |opts| ==> ',' !in opts[i]
    ensures SplitOn(OptionsField(Some(opts)), ',') == ["defaults"] + (if |opts| == 0 then [""] else opts)
  {
    assert OptionsField(Some(opts)) == OptionsDefault + [','] + Join(",", opts);
    assert ',' !in OptionsDefault;
    SplitAfterPiece(OptionsDefault, ',', Join(",", opts));
    if |opts| > 0 {
      SplitJoin(opts, ',');
    }
  }

  // ---------------------------------------------------------------------------
  // Advisories: one per reserved-block percentage, never touching the lines.

  /** The advisories of the devices that carry `root-reserve`, in device order. */
  function ReserveAdvisories(ds: seq<DeviceEntry>): seq<string>
  {
    if |ds| == 0 then []
    else
      (if ds[0].1.rootReserve.Some? then [Advisory(ds[0].0, ds[0].1.rootReserve.value)] else [])
        + ReserveAdvisories(ds[1..])
  }

  /** The same devices with every `root-reserve` key removed. */
  function WithoutReserves(ds: seq<DeviceEntry>): (r: seq<DeviceEntry>)
    ensures |r| == |ds|
  {
    seq(|ds|, i requires 0 <= i < |ds| => (ds[i].0, ds[i].1.(rootReserve := None)))
  }

  /** Over well-formed devices, the advisories are exactly one per device with
      `root-reserve`, in device order, and none for the others. */
  lemma {:induction false} AdvisoriesAreReserves(ds: seq<DeviceEntry>)
    requires AllWellFormed(ds)
    ensures Generate(ds).advisories == ReserveAdvisories(ds)
  {
    if |ds| > 0 {
      AllWellFormedAppend([ds[0]], ds[1..]);
      assert [ds[0]] + ds[1..] == ds;
      AdvisoriesAreReserves(ds[1..]);
    }
  }

  /** `root-reserve` is a side channel: without it every device gives the same line,
      the pass stops at the same device with the same error, and no advisory is raised. */
  lemma {:induction false} ReservesDoNotChangeLines(ds: seq<DeviceEntry>)
    ensures Generate(WithoutReserves(ds)).lines == Generate(ds).lines
    ensures Generate(WithoutReserves(ds)).failure == Generate(ds).failure
    ensures Generate(WithoutReserves(ds)).advisories == []
  {
    if |ds| > 0 {
      var stripped := WithoutReserves(ds);
      assert stripped[1..] == WithoutReserves(ds[1..]);
      ReservesDoNotChangeLines(ds[1..]);
      assert BuildRecord(ds[0].0, ds[0].1) == BuildRecord(stripped[0].0, stripped[0].1);
    }
  }

  /** The advisory ends with the tuning command `tune2fs -m <value> <device>`, whose
      value is the reserve with its last character (the `%`) removed. */
  lemma AdvisoryCommand(id: string, reserve: string)
    requires IsWord(id) && IsWord(DropLast(reserve))
    ensures |Words(Advisory(id, reserve))| >= 4
    ensures Words(Advisory(id, reserve))[|Words(Advisory(id, reserve))| - 4..]
      == ["tune2fs", "-m", DropLast(reserve), id]
  {
    var preamble := "root-reserve is required for device " + id + ", try this command after the mount: ";
    var command := ["tune2fs", "-m", DropLast(reserve), id];
    assert IsWord("tune2fs") && IsWord("-m");
    WordsJoin(" ", command);
    assert preamble[|preamble| - 1] == ' ';
    WordsConcat(preamble, TuneCommand(id, reserve));
  }

  // ---------------------------------------------------------------------------
  // The written text.

  /** Splitting the written text at newlines gives the lines back followed by the
      empty piece after the final newline; an empty table is a single newline. */
  lemma SerializeSplitsBack(lines: seq<string>)
    requires forall i :: 0 <= i < |lines| ==> '\n' !in lines[i]
    ensures SplitOn(Serialize(lines), '\n') == (if |lines| == 0 then ["", ""] else lines + [""])
    ensures |lines| == 0 ==> Serialize(lines) == "\n"
  {
    SplitTrailingSeparator(Join("\n", lines), '\n');
    if |lines| > 0 {
      SplitJoin(lines, '\n');
    }
  }

  // ---------------------------------------------------------------------------
  // Malformed records.

  /** The first malformed device stops the pass: the lines and advisories are those of
      the devices before it, and the error is that device's. */
  lemma {:induction false} FirstMalformedStops(ds: seq<DeviceEntry>, j: nat)
    requires j < |ds|
    requires AllWellFormed(ds[..j])
    requires !DeviceWellFormed(ds[j].1)
    ensures Generate(ds) == Progress(
      Generate(ds[..j]).lines,
      Generate(ds[..j]).advisories,
      Some(BuildRecord(ds[j].0, ds[j].1).error))
  {
    assert ds == ds[..j] + ds[j..];
    GenerateAppend(ds[..j], ds[j..]);
    GenerateSucceedsIff(ds[..j]);
    assert ds[j..][0] == ds[j];
  }

  /** A document with a malformed device is not written: the run reports the error of
      the first malformed device, and only the advisories of the devices before it. */
  lemma MalformedDocumentNotWritten(doc: Document, j: nat)
    requires j < |Flatten(doc)|
    requires AllWellFormed(Flatten(doc)[..j])
    requires !DeviceWellFormed(Flatten(doc)[j].1)
    ensures Populate(doc).written == Failure(BuildRecord(Flatten(doc)[j].0, Flatten(doc)[j].1).error)
    ensures Populate(doc).advisories == Generate(Flatten(doc)[..j]).advisories
  {
    FirstMalformedStops(Flatten(doc), j);
  }
}
