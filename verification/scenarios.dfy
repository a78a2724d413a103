/** Two worked scenarios: the exact text written for a one-device document. The
    expected text is spelled column by column, with the two-space separator and the
    final newline written out. */
module Scenarios {
  import opened Wrappers
  import opened Text
  import opened Config
  import opened Fstab
  import opened FstabProperties

  /** A document of one group holding one well-formed device writes that device's line
      and a newline. */
  lemma SingleDeviceRun(group: string, id: string, d: Device, line: string)
    requires BuildRecord(id, d).Success? && FormatLine(BuildRecord(id, d).value) == line
    ensures Populate([(group, [(id, d)])]).written == Success(line + "\n")
  {
    var doc: Document := [(group, [(id, d)])];
    assert Flatten(doc) == [(id, d)] + Flatten([]);
    assert Generate([(id, d)]) == Then(Step(id, d), Start);
  }

  /** An `ext4` record with two options and a dump value: the options follow
      `defaults`, the dump is copied and the missing fsck becomes `0`. */
  lemma Ext4Example(doc: Document)
    requires doc == [("group1", [("/dev/sda1", Device(Some("/data"), Some("ext4"), None,
      Some(["ro", "noatime"]), Some("1"), None, None))])]
    ensures Populate(doc).written == Success(
      "/dev/sda1" + "  " + ("/data" + "  " + ("ext4" + "  " + ("defaults,ro,noatime" + "  " + ("1" + "  " + "0"))))
      + "\n")
  {
    var d := Device(Some("/data"), Some("ext4"), None, Some(["ro", "noatime"]), Some("1"), None, None);
    var rec := TableRecord("/dev/sda1", "/data", "ext4", "defaults,ro,noatime", "1", "0");
    assert BuildRecord("/dev/sda1", d) == Success(rec) by {
      assert "ext4" != NfsType by { assert "ext4"[0] != NfsType[0]; }
      assert Join(",", ["ro", "noatime"]) == "ro,noatime";
      assert "defaults" + "," + "ro,noatime" == "defaults,ro,noatime";
    }
    LineText("/dev/sda1", "/data", "ext4", "defaults,ro,noatime", "1", "0");
    SingleDeviceRun("group1", "/dev/sda1", d, FormatLine(rec));
  }

  /** An `nfs` record: the export is appended to the device after a colon, and the
      missing options, dump and fsck take their defaults. */
  lemma NfsExample(doc: Document)
    requires doc == [("group1", [("nas1", Device(Some("/mnt/nas"), Some("nfs"), Some("/export/a"),
      None, None, None, None))])]
    ensures Populate(doc).written == Success(
      "nas1:/export/a" + "  " + ("/mnt/nas" + "  " + ("nfs" + "  " + ("defaults" + "  " + ("0" + "  " + "0"))))
      + "\n")
  {
    var d := Device(Some("/mnt/nas"), Some("nfs"), Some("/export/a"), None, None, None, None);
    var rec := TableRecord("nas1:/export/a", "/mnt/nas", "nfs", "defaults", "0", "0");
    assert BuildRecord("nas1", d) == Success(rec) by {
      assert "nfs" == NfsType;
      assert "nas1" + ":" + "/export/a" == "nas1:/export/a";
    }
    LineText("nas1:/export/a", "/mnt/nas", "nfs", "defaults", "0", "0");
    SingleDeviceRun("group1", "nas1", d, FormatLine(rec));
  }
}
