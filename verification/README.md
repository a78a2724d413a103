# fstab generator: the table builder

This project models the core of a generator for fstab mount-table files. It
covers `populate_fstab` in `fstab_generator.py`. The function walks a parsed
configuration document and emits one fstab line per device record. The
document maps group names to mappings from device identifiers to device
records. For every record that carries a `root-reserve` percentage, it also
emits an advisory. It then writes the lines as one newline-terminated text.

The model is functional:

- **Wrappers** (`wrappers.dfy`): `Option` for the optional keys of a record, and `Result` for "text written" versus "run stopped".
- **Text** (`text.dfy`): the string operations the builder uses:
  - `sep.join(parts)` as `Join`;
  - `s[:-1]` as `DropLast`.

  It also holds two readers that serve as partners for the proofs:
  - `SplitOn` is `s.split(c)`;
  - `Words` is `s.split()`: it splits on runs of whitespace, as Python defines it (space, tab, newline and the other ASCII and Unicode whitespace characters). A mount-table reader splits a line into columns the same way at spaces and tabs.
- **Config** (`config.dfy`): the document.
  - Mappings are association lists in document order, because that order decides the order of the table.
  - `Flatten` is the traversal: the groups in order, then each group's devices in order.
  - `DeviceWellFormed` is what the builder needs of a record: `mount` and `type` present, and `export` present when the type is `nfs`.
- **Fstab** (`fstab.dfy`): the builder.
  - `BuildRecord` derives the six columns of one device, or the error that stops the run.
  - `FormatLine` joins the six columns with the two-space separator.
  - `Advisory`/`DeviceAdvisories` build the `root-reserve` warning.
  - `Generate` is the single pass over the devices. `Serialize` produces the written text.
  - `Populate` is a whole run: the advisories raised, plus either the written text or the error.
  - The methods `PopulateFstab`/`BuildGroup` perform the run as the source does, with a loop over the groups around a loop over each group's devices. They are proved to compute `Populate`.
- **FstabProperties** (`properties.dfy`) and **Scenarios** (`scenarios.dfy`): the properties of the generated table, and two worked one-device documents.

Behaviour of the code that the model follows as written:

- The source evaluates `device_config["mount"]`, then `device_config["type"]`, then `":" + export` for an `nfs` record. A missing key raises, and so does the missing export, because `str + None` fails. The exception leaves the loop before the file is opened, so nothing is written. Warnings already logged for earlier devices stay logged. `Outcome` therefore carries the advisories of the devices before the failing one together with `Failure(error)`.
- An `options` key holding an empty list gives the column `defaults,`. Only an absent key gives exactly `defaults`.
- The advisory removes the last character of the `root-reserve` value, whatever that character is. A trailing `%` is expected but not checked. An empty value stays empty.
- An empty document writes a single newline.
- The builder does not check the schema itself. The schema check runs before it, in `main`. The model treats a record the builder cannot handle as the failure branch, and does not assume the document is valid.

## Model

| member | source | states |
|---|---|---|
| Text.Join | fstab_generator.py:58 | `sep.join(parts)` has the total length of the parts plus one separator between each pair of neighbours |
| Text.DropLast | fstab_generator.py:67 | `s[:-1]`: the empty string stays empty; otherwise adding back the last character gives the original string |
| Config.Flatten | fstab_generator.py:42-43 | the traversal visits exactly as many devices as all groups hold together |
| Config.FlattenPosition | fstab_generator.py:42-43 | device `k` of group `g` is visited right after every device of the earlier groups: group order first, then device order within the group |
| Config.WellFormedFlatten | fstab_generator.py:42-54 | every record of every group is well formed exactly when every visited record is |
| Fstab.OptionsField | fstab_generator.py:48-59 | the options column always starts with `defaults`, and is exactly `defaults` if and only if the record has no `options` key |
| Fstab.BuildRecord | fstab_generator.py:45-59 | a device's columns can be built if and only if `mount` and `type` are present and an `nfs` record has `export`; an error carries the device id, standing for the progress message that names the device just before the failing lookup (the exception itself carries only the key or the type error); a missing `mount` is reported before a missing `type`, and both before a missing `export`; mount and type are copied verbatim; the device column starts with the device id |
| Fstab.FormatLine | fstab_generator.py:61-63 | a line starts with the device column and the two-space separator; a line whose columns hold no newline holds none itself, so every device takes exactly one line of the table (`FstabProperties.LineText` gives its exact text and `FormatLineWords` the read-back of all six columns) |
| FstabProperties.LineText | fstab_generator.py:62 | for every column value, a line is exactly `device  mount  type  options  dump  fsck`: the six columns in order with two spaces between neighbours |
| Fstab.Advisory | fstab_generator.py:65-68 | the advisory ends with `tune2fs -m <value> <device>`, the value being the reserve without its last character; a reserve of one character or none leaves the value empty, giving `tune2fs -m  <device>` with two spaces |
| Fstab.DeviceAdvisories | fstab_generator.py:65-68 | a device raises one advisory if it has `root-reserve` and none otherwise |
| Fstab.Generate | fstab_generator.py:42-68 | a pass that gets through has one line per device; a pass never has more lines than devices, nor more advisories than lines |
| Fstab.Populate | fstab_generator.py:39-77 | a run raises at most one advisory per device, and written text always ends with a newline (`WrittenIffWellFormed`, `DocumentWritten` and `MalformedDocumentNotWritten` say when it is written and what) |
| Fstab.Serialize | fstab_generator.py:72-73 | the written text is never empty and always ends with a newline |
| Fstab.GenerateAppend | fstab_generator.py:42-43 | a pass over two device lists equals the pass over the first, continued with the pass over the second only if the first got through |
| Fstab.GenerateSucceedsIff | fstab_generator.py:46-54 | the pass gets through a device list if and only if every record in it is well formed |
| Fstab.BuildGroup | fstab_generator.py:43-68 | the inner loop over one group's devices continues the pass from the devices before the group and stops at the first device that cannot be built |
| Fstab.PopulateFstab | fstab_generator.py:39-77 | the nested group and device loops, which return early on the first failing device and write only after all devices, compute the same outcome as the single pass over the flattened document |
| Fstab.GroupStopsRun | fstab_generator.py:40-75 | once a group stops the pass, no later group contributes anything |
| FstabProperties.GenerateLines | fstab_generator.py:61-63 | over well-formed devices the pass gets through, and line `i` is the line of device `i` |
| FstabProperties.DocumentWritten | fstab_generator.py:42-73 | a well-formed document is written as the serialised lines of the pass, `TotalDevices` lines in all; a document without devices is written as a single newline |
| FstabProperties.EmptyDocumentWritten | fstab_generator.py:39-73 | a document without devices, whatever groups it has, is written as exactly one newline and raises no advisory |
| FstabProperties.LinesFollowDocument | fstab_generator.py:42-73 | in a well-formed document, device `k` of group `g` gives the line at position (devices of earlier groups + `k`) |
| FstabProperties.WrittenIffWellFormed | fstab_generator.py:46-77 | the text is written if and only if every record of every group is well formed |
| FstabProperties.FormatLineWords | fstab_generator.py:62 | a line whose columns are non-empty and free of whitespace reads back, split on whitespace, as exactly its six columns in order |
| FstabProperties.LineColumns | fstab_generator.py:45-62 | read back, a device's line is: `id:export` for `nfs` and the bare id otherwise; the mount point; the type; `defaults`, followed by `,` and the comma-joined options if `options` is present; the dump value, or `0` if absent; the fsck value, or `0` if absent |
| FstabProperties.ExportIgnoredUnlessNfs | fstab_generator.py:49-54 | for any type other than `nfs`, adding, removing or changing `export` does not change the device's columns or its error |
| FstabProperties.OptionsColumnSplits | fstab_generator.py:56-59 | the options column splits at commas into `defaults` followed by the options in order; an empty list gives `defaults` and one empty option |
| FstabProperties.AdvisoriesAreReserves | fstab_generator.py:65-68 | over well-formed devices, the advisories are exactly one per device with `root-reserve`, in device order |
| FstabProperties.ReservesDoNotChangeLines | fstab_generator.py:61-68 | removing every `root-reserve` key leaves the lines and the stopping error unchanged, and removes all advisories |
| FstabProperties.AdvisoryCommand | fstab_generator.py:67 | the advisory ends with the command `tune2fs -m <value> <device>`, where the value is the reserve without its last character |
| FstabProperties.SerializeSplitsBack | fstab_generator.py:72-73 | splitting the written text at newlines gives the lines back, followed by the empty piece after the single final newline; an empty table is exactly one newline |
| FstabProperties.FirstMalformedStops | fstab_generator.py:42-54 | the first malformed device stops the pass with its own error; the lines and advisories are those of the devices before it |
| FstabProperties.MalformedDocumentNotWritten | fstab_generator.py:70-77 | a document with a malformed device is not written: the run reports the error of the first malformed device and keeps only the advisories raised before it |
| Scenarios.Ext4Example | fstab_generator.py:45-73 | `/dev/sda1` with `ext4`, options `ro`,`noatime` and dump `1` writes `/dev/sda1  /data  ext4  defaults,ro,noatime  1  0` and a newline |
| Scenarios.NfsExample | fstab_generator.py:45-73 | `nas1` with `nfs` and export `/export/a` writes `nas1:/export/a  /mnt/nas  nfs  defaults  0  0` and a newline |

## Left out

- Reading and parsing the YAML input (`get_yml_file`, helpers/parse.py) is file I/O and a YAML library. The parsed document is an input value here. That function exits the process on a read error, so such an error never reaches the builder's error path.
- Argument parsing (`parse_arguments`) is command-line plumbing. So is `main`, which only orders the steps.
- The file existence and extension checks (helpers/files_validator.py) are operating-system I/O.
- Schema validation (helpers/schema_validator.py) calls the `jsonschema` library against a schema document that is not part of this model. `DeviceWellFormed` states only what the builder itself needs, and the model does not reconstruct the schema.
- Logging is not modelled: the `logger.info` progress messages, the `logger.error` message and the printed traceback. The `root-reserve` warnings are modelled as the returned `advisories`.
- Opening and writing the output file is left out, and so is a write that fails. A run that gets through every device is modelled as writing the whole text.
- Values are typed. Every scalar is a string, and `options` is a list of strings. In the source, an explicit `null` for `dump` or `fsck` prints `None` into the line. An `options` value that is a string gets its characters joined. A numeric, boolean, date or null `root-reserve` raises after the device's line was built. A list is sliced and printed. None of these inputs can be expressed in this model.
- Parsed mappings have unique keys. The association lists do not enforce this, and nothing in the builder depends on it.
- FstabProperties.LineColumns: states the columns only for non-empty values without whitespace (the device id, mount, type, dump and fsck non-empty; no value holding a space, tab or other whitespace character). A whitespace reader cannot recover a column that is empty or contains whitespace. `FormatLine` itself is defined for all values.
- FstabProperties.FormatLineWords: same restriction as `LineColumns`, non-empty and whitespace-free columns, for the same reason.
- FstabProperties.OptionsColumnSplits: assumes no option contains a comma. A comma inside an option cannot be told apart from the separator.
- FstabProperties.SerializeSplitsBack: assumes no line contains a newline, for the same reason.
- FstabProperties.AdvisoryCommand: states only the trailing command words, and assumes a non-empty device id without whitespace and a reserve of at least two characters whose value holds no whitespace. For a reserve of one character or none the value is empty; the contract of `Advisory` states the text in that case and in every other.
