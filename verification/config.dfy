/** The parsed configuration document: an ordered mapping from group name to an
    ordered mapping from device identifier to device record. Mappings are kept as
    association lists so that the document's insertion order, which decides the
    order of the generated table, is part of the value. */
module Config {
  import opened Wrappers

  /** The filesystem type whose device field carries an export path. */
  const NfsType: string := "nfs"

  /** One device record. Every key of the record is optional in the parsed document;
      `fsType` is the record's `type` key and `exportPath` its `export` key, and
      `rootReserve` its `root-reserve` key. */
  datatype Device = Device(
    mount: Option<string>,
    fsType: Option<string>,
    exportPath: Option<string>,
    options: Option<seq<string>>,
    dump: Option<string>,
    fsck: Option<string>,
    rootReserve: Option<string>)

  /** A device identifier with its record. */
  type DeviceEntry = (string, Device)

  /** A group name with its devices, in document order. */
  type Group = (string, seq<DeviceEntry>)

  /** The whole document: its groups in document order. */
  type Document = seq<Group>

  /** Number of device records across all groups. */
  function TotalDevices(doc: Document): nat
  {
    if |doc| == 0 then 0 else |doc[0].1| + TotalDevices(doc[1..])
  }

  /** The devices of the document in traversal order: the groups in order, and
      within each group its devices in order. */
  function Flatten(doc: Document): (r: seq<DeviceEntry>)
    ensures |r| == TotalDevices(doc)
  {
    if |doc| == 0 then [] else doc[0].1 + Flatten(doc[1..])
  }

  /** What the table builder needs of a record: `mount` and `type` present, and
      `export` present whenever the type is `nfs`. */
  predicate DeviceWellFormed(d: Device)
  {
    && d.mount.Some?
    && d.fsType.Some?
    && (d.fsType.value == NfsType ==> d.exportPath.Some?)
  }

  /** Every device of a device list is well formed. */
  predicate AllWellFormed(ds: seq<DeviceEntry>)
  {
    forall i :: 0 <= i < |ds| ==> DeviceWellFormed(ds[i].1)
  }

  /** Every device of every group is well formed. */
  predicate WellFormed(doc: Document)
  {
    forall g :: 0 <= g < |doc| ==> AllWellFormed(doc[g].1)
  }

  /** Flattening a concatenation of documents concatenates their flattenings. */
  lemma {:induction false} FlattenAppend(a: Document, b: Document)
    ensures Flatten(a + b) == Flatten(a) + Flatten(b)
  {
    if |a| == 0 {
      assert a + b == b;
    } else {
      assert (a + b)[1..] == a[1..] + b;
      FlattenAppend(a[1..], b);
    }
  }

  /** Device `k` of group `g` sits in the flattened list right after all devices of
      the earlier groups: groups keep their order and so do the devices inside each. */
  lemma {:induction false} FlattenPosition(doc: Document, g: nat, k: nat)
    requires g < |doc| && k < |doc[g].1|
    ensures TotalDevices(doc[..g]) + k < |Flatten(doc)|
    ensures Flatten(doc)[TotalDevices(doc[..g]) + k] == doc[g].1[k]
  {
    if g == 0 {
      assert doc[..0] == [];
    } else {
      FlattenPosition(doc[1..], g - 1, k);
      assert doc[1..][..g - 1] == doc[..g][1..];
    }
  }

  /** A non-empty device list is well formed exactly when its first device and the rest are. */
  lemma AllWellFormedCons(ds: seq<DeviceEntry>)
    requires |ds| > 0
    ensures AllWellFormed(ds) <==> DeviceWellFormed(ds[0].1) && AllWellFormed(ds[1..])
  {
    if DeviceWellFormed(ds[0].1) && AllWellFormed(ds[1..]) {
      forall i | 1 <= i < |ds|
        ensures DeviceWellFormed(ds[i].1)
      {
        assert ds[i] == ds[1..][i - 1];
      }
    }
  }

  /** A concatenation of device lists is well formed exactly when both are. */
  lemma AllWellFormedAppend(a: seq<DeviceEntry>, b: seq<DeviceEntry>)
    ensures AllWellFormed(a + b) <==> AllWellFormed(a) && AllWellFormed(b)
  {
    if AllWellFormed(a) && AllWellFormed(b) {
      forall i | 0 <= i < |a + b|
        ensures DeviceWellFormed((a + b)[i].1)
      {
        if i >= |a| {
          assert (a + b)[i] == b[i - |a|];
        }
      }
    }
    if AllWellFormed(a + b) {
      forall i | 0 <= i < |a|
        ensures DeviceWellFormed(a[i].1)
      {
        assert (a + b)[i] == a[i];
      }
      forall i | 0 <= i < |b|
        ensures DeviceWellFormed(b[i].1)
      {
        assert (a + b)[|a| + i] == b[i];
      }
    }
  }

  /** The document is well formed exactly when its flattened device list is. */
  lemma {:induction false} WellFormedFlatten(doc: Document)
    ensures WellFormed(doc) <==> AllWellFormed(Flatten(doc))
  {
    if |doc| > 0 {
      WellFormedFlatten(doc[1..]);
      AllWellFormedAppend(doc[0].1, Flatten(doc[1..]));
      if AllWellFormed(Flatten(doc)) {
        forall g | 0 <= g < |doc|
          ensures AllWellFormed(doc[g].1)
        {
          if g > 0 {
            assert doc[g] == doc[1..][g - 1];
          }
        }
      }
      if WellFormed(doc) {
        assert forall g :: 0 <= g < |doc| - 1 ==> doc[1..][g] == doc[g + 1];
      }
    }
  }

  /** Taking one more group appends that group's devices to the flattened prefix. */
  lemma FlattenExtend(doc: Document, g: nat)
    requires g < |doc|
    ensures Flatten(doc[..g + 1]) == Flatten(doc[..g]) + doc[g].1
  {
    assert doc[..g + 1] == doc[..g] + [doc[g]];
    FlattenAppend(doc[..g], [doc[g]]);
    assert Flatten([doc[g]]) == doc[g].1 + Flatten([]);
  }

  /** The flattened document around group `g`: the groups before it, its own devices,
      then the groups after it. */
  lemma FlattenAround(doc: Document, g: nat)
    requires g < |doc|
    ensures Flatten(doc) == Flatten(doc[..g]) + doc[g].1 + Flatten(doc[g + 1..])
  {
    assert doc == doc[..g + 1] + doc[g + 1..];
    FlattenAppend(doc[..g + 1], doc[g + 1..]);
    FlattenExtend(doc, g);
  }
}
