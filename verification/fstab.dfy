/** The table builder: derives one mount-table line per device record, in document
    order, collects an advisory for every record with a reserved-block percentage,
    and serialises the lines into the text written to the mount table. A record
    the builder cannot handle aborts the run before anything is written. */
module Fstab {
  import opened Wrappers
  import opened Text
  import opened Config

  /** Options column when the record gives no options, and the token that always leads it. */
  const OptionsDefault: string := "defaults"
  /** Dump column when the record gives none. */
  const DumpDefault: string := "0"
  /** Fsck column when the record gives none. */
  const FsckDefault: string := "0"
  /** The fixed separator between the six columns of a line. */
  const Separator: string := "  "

  /** Why the run stopped: a required key missing from a record (the mapping lookup
      fails), or an `nfs` record without `export` (its device field cannot be built).
      The exceptions themselves carry only the key or the type error; the `device`
      field stands for the progress message that names the device being built. */
  datatype BuildError =
    | MissingKey(device: string, key: string)
    | NfsWithoutExport(device: string)

  /** The six columns of one mount-table line. */
  datatype TableRecord = TableRecord(
    device: string,
    mount: string,
    fsType: string,
    options: string,
    dump: string,
    fsck: string)

  /** The options column: `defaults`, followed, when the record has an `options` key,
      by a comma and the options joined with commas. */
  function OptionsField(options: Option<seq<string>>): (r: string)
    ensures |r| >= |OptionsDefault| && r[..|OptionsDefault|] == OptionsDefault
    ensures r == OptionsDefault <==> options.None?
  {
    match options
    case None => OptionsDefault
    case Some(opts) => OptionsDefault + "," + Join(",", opts)
  }

  /** The columns for device `id`, or the error that aborts the run. The keys are
      looked up in the order `mount`, `type`, then `export` for an `nfs` record. */
  function BuildRecord(id: string, d: Device): (r: Result<TableRecord, BuildError>)
    ensures r.Success? <==> DeviceWellFormed(d)
    ensures r.Failure? ==> r.error.device == id
    ensures r.Success? ==> r.value.mount == d.mount.value && r.value.fsType == d.fsType.value
    ensures r.Success? ==> |id| <= |r.value.device| && r.value.device[..|id|] == id
    ensures d.mount.None? ==> r == Failure(MissingKey(id, "mount"))
    ensures d.mount.Some? && d.fsType.None? ==> r == Failure(MissingKey(id, "type"))
    ensures d.mount.Some? && d.fsType == Some(NfsType) && d.exportPath.None? ==> r == Failure(NfsWithoutExport(id))
  {
    if d.mount.None? then Failure(MissingKey(id, "mount"))
    else if d.fsType.None? then Failure(MissingKey(id, "type"))
    else if d.fsType.value == NfsType && d.exportPath.None? then Failure(NfsWithoutExport(id))
    else
      var device := if d.fsType.value == NfsType then id + ":" + d.exportPath.value else id;
      Success(TableRecord(
        device,
        d.mount.value,
        d.fsType.value,
        OptionsField(d.options),
        d.dump.GetOr(DumpDefault),
        d.fsck.GetOr(FsckDefault)))
  }

  /** The six columns of a line, in table order. */
  function Columns(rec: TableRecord): seq<string>
  {
    [rec.device, rec.mount, rec.fsType, rec.options, rec.dump, rec.fsck]
  }

  /** One mount-table line: the six columns separated by two spaces. It starts with
      the device column and the separator, and it is a single line of the table
      whenever no column holds a newline. */
  function FormatLine(rec: TableRecord): (r: string)
    ensures |rec.device| + |Separator| <= |r| && r[..|rec.device| + |Separator|] == rec.device + Separator
    ensures (forall i :: 0 <= i < |Columns(rec)| ==> '\n' !in Columns(rec)[i]) ==> '\n' !in r
  {
    var line := Join(Separator, Columns(rec));
    // Both branches give the same line; the branch only brings the lemma that
    // proves the newline clause into scope when its premise holds.
    if forall i :: 0 <= i < |Columns(rec)| ==> '\n' !in Columns(rec)[i] then
      JoinAvoids(Separator, Columns(rec), '\n');
      line
    else line
  }

  /** The command that applies a reserved-block percentage after mounting:
      `tune2fs -m <value> <device>`, the value being the reserve with its last
      character (the `%` sign) removed. */
  function TuneCommand(id: string, reserve: string): string
  {
    Join(" ", ["tune2fs", "-m", DropLast(reserve), id])
  }

  /** The advisory for a device with a reserved-block percentage, which the table
      cannot express: it names the device and ends with the tuning command. A reserve
      of one character or none leaves the command's value empty. */
  function Advisory(id: string, reserve: string): (r: string)
    ensures |reserve| <= 1 ==> EndsWith(r, "tune2fs -m  " + id)
    ensures |reserve| >= 2 ==> EndsWith(r, "tune2fs -m " + reserve[..|reserve| - 1] + " " + id)
  {
    var preamble := "root-reserve is required for device " + id + ", try this command after the mount: ";
    TuneCommandText(id, reserve);
    EndsWithAppended(preamble, TuneCommand(id, reserve));
    preamble + TuneCommand(id, reserve)
  }

  /** The tuning command spelled out: the words separated by single spaces. */
  lemma TuneCommandText(id: string, reserve: string)
    ensures TuneCommand(id, reserve) == "tune2fs -m " + DropLast(reserve) + " " + id
  {
    var value := DropLast(reserve);
    assert [value, id] == [value] + [id];
    JoinCons(" ", value, [id]);
    assert ["-m", value, id] == ["-m"] + [value, id];
    JoinCons(" ", "-m", [value, id]);
    assert ["tune2fs", "-m", value, id] == ["tune2fs"] + ["-m", value, id];
    JoinCons(" ", "tune2fs", ["-m", value, id]);
  }

  /** The advisories one device raises: one when it has `root-reserve`, none otherwise. */
  function DeviceAdvisories(id: string, d: Device): (r: seq<string>)
    ensures |r| <= 1
    ensures |r| == 1 <==> d.rootReserve.Some?
  {
    match d.rootReserve
    case Some(reserve) => [Advisory(id, reserve)]
    case None => []
  }

  /** State of the single pass over the devices: the lines built so far, the advisories
      raised so far, and the error that stopped the pass, if any. */
  datatype Progress = Progress(lines: seq<string>, advisories: seq<string>, failure: Option<BuildError>)

  /** The pass before anything has been looked at. */
  const Start: Progress := Progress([], [], None)

  /** What one device contributes: its line and then its advisories, or the error
      that stops the pass. */
  function Step(id: string, d: Device): (p: Progress)
    ensures p.failure.None? <==> DeviceWellFormed(d)
    ensures p.failure.None? ==> |p.lines| == 1 && |p.advisories| == |DeviceAdvisories(id, d)|
    ensures p.failure.Some? ==> p.lines == [] && p.advisories == []
  {
    match BuildRecord(id, d)
    case Failure(e) => Progress([], [], Some(e))
    case Success(rec) => Progress([FormatLine(rec)], DeviceAdvisories(id, d), None)
  }

  /** Continuing a pass with a later part: once stopped, nothing later contributes. */
  function Then(p: Progress, q: Progress): Progress
  {
    if p.failure.Some? then p
    else Progress(p.lines + q.lines, p.advisories + q.advisories, q.failure)
  }

  /** The pass over a device list, device by device; the first device that cannot
      be built stops the pass and contributes nothing. */
  function Generate(ds: seq<DeviceEntry>): (p: Progress)
    ensures p.failure.None? ==> |p.lines| == |ds|
    ensures |p.lines| <= |ds|
    ensures |p.advisories| <= |p.lines|
  {
    if |ds| == 0 then Start
    else Then(Step(ds[0].0, ds[0].1), Generate(ds[1..]))
  }

  /** The file contents: the lines joined by newlines, plus one final newline. */
  function Serialize(lines: seq<string>): (r: string)
    ensures |r| > 0 && r[|r| - 1] == '\n'
  {
    Join("\n", lines) + "\n"
  }

  /** Result of a whole run: the advisories raised, and either the text written to the
      table or the error that stopped the run before anything was written. */
  datatype Outcome = Outcome(advisories: seq<string>, written: Result<string, BuildError>)

  /** A run over the document: one pass over its devices in document order; the text
      is written only when the pass got through every device. */
  function Populate(doc: Document): (r: Outcome)
    ensures |r.advisories| <= TotalDevices(doc)
    ensures r.written.Success? ==> EndsWith(r.written.value, "\n")
  {
    var p := Generate(Flatten(doc));
    Outcome(p.advisories, if p.failure.None? then Success(Serialize(p.lines)) else Failure(p.failure.value))
  }

  /** Running over two device lists one after the other: the second only runs when the
      first got through, and then its lines and advisories follow the first's. */
  lemma {:induction false} GenerateAppend(a: seq<DeviceEntry>, b: seq<DeviceEntry>)
    ensures Generate(a + b) == Then(Generate(a), Generate(b))
  {
    if |a| == 0 {
      assert a + b == b;
    } else {
      assert (a + b)[0] == a[0];
      assert (a + b)[1..] == a[1..] + b;
      GenerateAppend(a[1..], b);
      ThenAssociative(Step(a[0].0, a[0].1), Generate(a[1..]), Generate(b));
    }
  }

  /** Splitting a pass into parts does not depend on how the parts are grouped. */
  lemma ThenAssociative(p: Progress, q: Progress, r: Progress)
    ensures Then(Then(p, q), r) == Then(p, Then(q, r))
  {
    if p.failure.None? && q.failure.None? {
      assert (p.lines + q.lines) + r.lines == p.lines + (q.lines + r.lines);
      assert (p.advisories + q.advisories) + r.advisories == p.advisories + (q.advisories + r.advisories);
    }
  }

  /** One more device: the pass so far continued with that device's contribution. */
  lemma GenerateNext(done: seq<DeviceEntry>, devices: seq<DeviceEntry>, k: nat)
    requires k < |devices|
    ensures Generate(done + devices[..k + 1])
      == Then(Generate(done + devices[..k]), Then(Step(devices[k].0, devices[k].1), Start))
  {
    assert done + devices[..k + 1] == (done + devices[..k]) + [devices[k]];
    GenerateAppend(done + devices[..k], [devices[k]]);
    assert [devices[k]][1..] == [];
  }

  /** The pass gets through a device list exactly when every device in it is well formed. */
  lemma {:induction false} GenerateSucceedsIff(ds: seq<DeviceEntry>)
    ensures Generate(ds).failure.None? <==> AllWellFormed(ds)
  {
    if |ds| > 0 {
      GenerateSucceedsIff(ds[1..]);
      AllWellFormedCons(ds);
      assert Generate(ds) == Then(Step(ds[0].0, ds[0].1), Generate(ds[1..]));
    }
  }

  /** The inner loop of the run: the devices of one group, in order, continuing the
      lines and advisories of the devices before them (`done`), and leaving at the first
      device that cannot be built. */
  method BuildGroup(ghost done: seq<DeviceEntry>, devices: seq<DeviceEntry>,
                    lines0: seq<string>, advisories0: seq<string>)
    returns (lines: seq<string>, advisories: seq<string>, failure: Option<BuildError>)
    requires Generate(done) == Progress(lines0, advisories0, None)
    ensures Generate(done + devices) == Progress(lines, advisories, failure)
  {
    lines, advisories := lines0, advisories0;
    var k := 0;
    assert done + devices[..0] == done;
    while k < |devices|
      invariant 0 <= k <= |devices|
      invariant Generate(done + devices[..k]) == Progress(lines, advisories, None)
    {
      var (id, d) := devices[k];
      var rec := BuildRecord(id, d);
      if rec.Failure? {
        AdvanceStopped(done, devices, k, lines, advisories);
        return lines, advisories, Some(rec.error);
      }
      AdvanceBuilt(done, devices, k, lines, advisories);
      lines := lines + [FormatLine(rec.value)];
      advisories := advisories + DeviceAdvisories(id, d);
      k := k + 1;
    }
    assert devices[..k] == devices;
    failure := None;
  }

  /** The run as the program performs it: a loop over the groups and, inside it, a loop
      over each group's devices, accumulating lines and advisories and leaving at the
      first device that cannot be built, without writing. */
  method PopulateFstab(doc: Document) returns (out: Outcome)
    ensures out == Populate(doc)
  {
    var lines: seq<string> := [];
    var advisories: seq<string> := [];
    var g := 0;
    while g < |doc|
      invariant 0 <= g <= |doc|
      invariant Generate(Flatten(doc[..g])) == Progress(lines, advisories, None)
    {
      var failure;
      lines, advisories, failure := BuildGroup(Flatten(doc[..g]), doc[g].1, lines, advisories);
      if failure.Some? {
        GroupStopsRun(doc, g);
        return Outcome(advisories, Failure(failure.value));
      }
      FlattenExtend(doc, g);
      g := g + 1;
    }
    assert doc[..g] == doc;
    out := Outcome(advisories, Success(Serialize(lines)));
  }

  /** A pass that has not stopped, continued with one device: that device's line and
      advisories are appended, or the pass stops with its error. */
  lemma ContinueWith(p: Progress, id: string, d: Device)
    requires p.failure.None?
    ensures BuildRecord(id, d).Success? ==>
      Then(p, Then(Step(id, d), Start))
        == Progress(p.lines + [FormatLine(BuildRecord(id, d).value)], p.advisories + DeviceAdvisories(id, d), None)
    ensures BuildRecord(id, d).Failure? ==>
      Then(p, Then(Step(id, d), Start)) == Progress(p.lines, p.advisories, Some(BuildRecord(id, d).error))
  {
    assert p.lines + [] == p.lines && p.advisories + [] == p.advisories;
    if BuildRecord(id, d).Success? {
      assert DeviceAdvisories(id, d) + [] == DeviceAdvisories(id, d);
    }
  }

  /** One iteration of the inner loop for a device that can be built: its line and
      advisories extend those of the devices before it. */
  lemma AdvanceBuilt(done: seq<DeviceEntry>, devices: seq<DeviceEntry>, k: nat,
                     lines: seq<string>, advisories: seq<string>)
    requires k < |devices|
    requires Generate(done + devices[..k]) == Progress(lines, advisories, None)
    requires BuildRecord(devices[k].0, devices[k].1).Success?
    ensures Generate(done + devices[..k + 1]) == Progress(
      lines + [FormatLine(BuildRecord(devices[k].0, devices[k].1).value)],
      advisories + DeviceAdvisories(devices[k].0, devices[k].1),
      None)
  {
    GenerateNext(done, devices, k);
    ContinueWith(Progress(lines, advisories, None), devices[k].0, devices[k].1);
  }

  /** One iteration of the inner loop for a device that cannot be built: the pass over
      the whole group stops there with that device's error. */
  lemma AdvanceStopped(done: seq<DeviceEntry>, devices: seq<DeviceEntry>, k: nat,
                       lines: seq<string>, advisories: seq<string>)
    requires k < |devices|
    requires Generate(done + devices[..k]) == Progress(lines, advisories, None)
    requires BuildRecord(devices[k].0, devices[k].1).Failure?
    ensures Generate(done + devices)
      == Progress(lines, advisories, Some(BuildRecord(devices[k].0, devices[k].1).error))
  {
    GenerateNext(done, devices, k);
    ContinueWith(Progress(lines, advisories, None), devices[k].0, devices[k].1);
    StoppedStaysStopped(done + devices[..k + 1], devices[k + 1..]);
    Regroup(done, devices, k + 1);
  }

  /** Cutting the second of two lists and regrouping. */
  lemma Regroup(done: seq<DeviceEntry>, devices: seq<DeviceEntry>, n: nat)
    requires n <= |devices|
    ensures done + devices == (done + devices[..n]) + devices[n..]
  {
    assert devices == devices[..n] + devices[n..];
  }

  /** When the pass stops inside group `g`, the pass over the whole document stops
      there too: no later group is looked at. */
  lemma GroupStopsRun(doc: Document, g: nat)
    requires g < |doc|
    requires Generate(Flatten(doc[..g]) + doc[g].1).failure.Some?
    ensures Generate(Flatten(doc)) == Generate(Flatten(doc[..g]) + doc[g].1)
  {
    FlattenAround(doc, g);
    StoppedStaysStopped(Flatten(doc[..g]) + doc[g].1, Flatten(doc[g + 1..]));
  }

  /** Once the pass has stopped, later devices change nothing. */
  lemma StoppedStaysStopped(xs: seq<DeviceEntry>, ys: seq<DeviceEntry>)
    requires Generate(xs).failure.Some?
    ensures Generate(xs + ys) == Generate(xs)
  {
    GenerateAppend(xs, ys);
  }
}
