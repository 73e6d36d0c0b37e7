# chromogenic image preparation, modelled in Dafny

chromogenic turns the disk image of a cloud instance into a machine image
another cloud can boot. The library does this in five steps:

1. It mounts the image: first from what `file` says about it, then by its
   extension, as qcow through an nbd device or as raw through a loop device.
2. It edits the guest's files through `sed`, `rm` and `truncate` rules.
3. It runs commands inside the guest between chroot mounts it always releases.
4. It cleans away user, Atmosphere and VM-specific data.
5. For a migration, it rebuilds the guest's ramdisk.

Cloud drivers (Eucalyptus, OpenStack, VirtualBox) add naming, credential and
argument helpers around these steps.

The model describes the machine as a `World`:

- `log` is the sequence of shell commands issued, in order.
- `fs` is a map from file paths to their lines.

An `Env` supplies what the model cannot compute:

- `respond` gives the reply of a command, as a function of the log so far.
- `glob` expands shell patterns.
- `matches` and `subst` evaluate the regular expressions of `sed`.

Python exceptions become the `Raised` case of `Outcome`.

Each operation that loops or updates state in the source is written in two
parts:

- a reference function (`…Spec`, or a recursive definition);
- an imperative `method` whose `ensures` equates its result with that
  reference.

The properties the source relies on are lemmas about the reference:

- the order of steps;
- that the chroot and mount brackets are always released;
- the lowest free device;
- the last line wins;
- round trips of names and version strings;
- the error cases.

The files follow the source:

- `outcomes.dfy` and `text.dfy`: exceptions, options, and Python's string operations.
- `world.dfy` (`Machine`): `run_command` and the path helpers.
- `fdisk.dfy`: the fdisk listing parser.
- `devices.dfy`: the loop and nbd device search.
- `edits.dfy`: the file-editing helpers and batches.
- `mount.dfy`: the mount strategies.
- `guest.dfy`: the distribution, the ramdisk and mkinitrd.
- `chroot.dfy`: the chroot bracket.
- `clean.dfy`: the cleaning plans of `clean.py`.
- `migration.dfy`: the migration plans.
- `naming.dfy`, `eucalyptus.dfy`, `openstack.dfy` and `virtualbox.dfy`: the driver helpers.
- `version.dfy`: `version.py`.

The source is Python 2, and the model keeps its semantics where they show:

- `map` and `filter` return lists.
- Concatenating `str` and `None` raises a `TypeError`.
- Default list arguments are shared between calls.

## Model

| member | source | states |
|---|---|---|
| Machine.Run | chromogenic/common.py:85-127 | a dry run returns empty streams and issues nothing; otherwise the command is appended to the log and its reply is the oracle's reply, and nothing raises |
| Machine.CheckMountPath | chromogenic/common.py:484-489 | a path starting with '/' loses exactly that one '/' (`"/" + r == p`); any other path, including "", is returned unchanged |
| Machine.GuestPathUnderRoot | chromogenic/common.py:484-489 | for a rule path that does not start with "//", the path joined under the mount point lies lexically under the mount point (a string prefix test; ".." components are not resolved) |
| Machine.DoubleSlashEscapesRoot | chromogenic/common.py:484-489 | "//etc/shadow" keeps a leading '/' after one is stripped, so joining it under "/mnt" gives the host's "/etc/shadow", which is not under "/mnt" |
| Machine.SplitExt | chromogenic/common.py:556-571 | the extension test of `_detect_and_mount_image`: stem and extension concatenate back to the path, and the extension is empty or one '.' followed by no '.' or '/' |
| Machine.LastIndex | chromogenic/common.py:556-571 | the last index holding the character, or -1, with no later occurrence |
| Fdisk.ConvertAll | chromogenic/common.py:926-934 | the keys are kept; every digit-string value becomes the int it denotes; every other value is kept; no digit string is left |
| Fdisk.ConvertAllIdempotent | chromogenic/common.py:926-934 | converting a converted dictionary changes nothing |
| Fdisk.MapStrToInt | chromogenic/common.py:926-934 | the key-by-key loop leaves exactly `ConvertAll` of the input dictionary |
| Fdisk.FirstFit | chromogenic/common.py:885-895 | `regex.search`: the first window at or after the start where the pattern fits, with no earlier fit, or -1 when none fits |
| Fdisk.Capture | chromogenic/common.py:885-895 | the `groupdict()` of a fitting window has exactly the pattern's group names, each a digit string |
| Fdisk.Search | chromogenic/common.py:885-895 | a match exists exactly when the pattern fits somewhere in the line; the group dictionary then has the pattern's keys, all digit strings |
| Fdisk.DiskFieldKeys | chromogenic/common.py:885-895 | the groups of lines 2, 3 and 4 together are exactly the seven disk fields |
| Fdisk.PartitionLine | chromogenic/common.py:900-912 | a matched partition line yields the seven fields; the device name is non-empty (so the "Regex failed" branch cannot fire), and start, end and blocks are digit strings |
| Fdisk.PartitionRecordsConcat | chromogenic/common.py:898-913 | the records of concatenated line lists are the records of the first list followed by those of the second, so line order is record order |
| Fdisk.PartitionRecordsOne | chromogenic/common.py:906-912 | a line that does not match ("Ignore the empty lines") contributes no record, and a matching line contributes exactly its own |
| Fdisk.PartitionRecordsBound | chromogenic/common.py:898-913 | there are never more records than lines |
| Fdisk.PartitionRecordsShaped | chromogenic/common.py:898-918 | every record, once converted, has int start, end and blocks |
| Fdisk.ConvertEach | chromogenic/common.py:917 | `[_map_str_to_int(dev) for dev in devices]`: the same number of records, each converted |
| Fdisk.DiskRecord | chromogenic/common.py:880-896 | the disk record exists exactly when there are at least five lines and lines 2, 3 and 4 each match their pattern; it then has the seven disk keys, all digit strings |
| Fdisk.PartitionLines | chromogenic/common.py:898-913 | the partition loop visits every line from index 9 to the end, and no line when there are fewer than ten |
| Fdisk.ParseEmpty | chromogenic/common.py:877-878 | empty output, and only empty output, parses to the empty dictionary |
| Fdisk.ParseRaises | chromogenic/common.py:880-896 | non-empty output raises exactly when there are fewer than five lines or line 2, 3 or 4 does not match (`None.groupdict()` or an index error) |
| Fdisk.ParseShape | chromogenic/common.py:914-923 | a successful parse holds the seven disk fields as ints and the partition records with int start, end and blocks; there are none when the listing has no line at index 9 or beyond |
| Fdisk.ConvertedShape | chromogenic/common.py:914-923 | converting a full disk record and the partition records gives a well-shaped parse |
| Fdisk.WalkPartitionLines | chromogenic/common.py:898-913 | the `while` loop collects exactly the records of the lines from index 9 on |
| Fdisk.MapEachStrToInt | chromogenic/common.py:917 | the loop converts each record, in order |
| Fdisk.ParseFdiskStats | chromogenic/common.py:853-923 | the imperative parse equals the reference parse `ParseFdiskSpec`, whose properties are the lemmas above |
| Fdisk.SelectPartition | chromogenic/common.py:840-850 | None exactly for an empty list; otherwise the first partition |
| Fdisk.FdiskImage | chromogenic/common.py:743-746 | issues exactly `fdisk -l path` and parses its output |
| Fdisk.FdiskGetPartition | chromogenic/common.py:749-752 | succeeds exactly when the listing parses to statistics (the empty parse has no 'devices' key), and then selects the first partition |
| Fdisk.RawOffset | chromogenic/common.py:801-805 | the offset is defined exactly when the parse has a unit size and a first partition with a start, and is then their non-negative product |
| Fdisk.ParsedRawOffset | chromogenic/common.py:801-805 | for every listing that parses and has a partition, the offset is defined |
| Fdisk.QcowOffset | chromogenic/common.py:699-726 | the qcow byte offset is 0 without a start, the start sector times 512 for an int start, and never negative |
| Fdisk.ParsedQcowOffset | chromogenic/common.py:699-726 | a parsed partition always gives its start sector times 512 |
| Fdisk.MountFrom | chromogenic/common.py:699-726 | `partition.get('image_name', nbd_dev)`: the nbd device when the record has no name, otherwise the record's name as text |
| Devices.ProbesAppendOne | chromogenic/common.py:755-779 | probing one more slot appends its probe at the end |
| Devices.FirstFree | chromogenic/common.py:755-779 | the lowest slot at or after the start whose probe answers free, with every slot before it busy, or the end of the range |
| Devices.NextFreeFrom | chromogenic/common.py:755-779 | the search from any slot, once the slots before have been probed, stops at the lowest free slot |
| Devices.LowestFreeSlot | chromogenic/common.py:755-779 | the whole search returns the lowest free slot having probed exactly the slots up to it, and raises exactly when no slot is free |
| Devices.GetNextLoop | chromogenic/common.py:755-766 | the `while` loop probing /dev/loop0 to /dev/loop6 with `losetup` equals the reference search and so returns the lowest free loop device |
| Devices.GetNextNbd | chromogenic/common.py:769-779 | the `while` loop probing /dev/nbd1 to /dev/nbd15 with `fdisk -l` equals the reference search and so returns the lowest free nbd device |
| Devices.LosetupExtractDevice | chromogenic/common.py:538-539 | output without a space is taken whole, only stripped of white space |
| Devices.SplitLastPiece | chromogenic/common.py:539 | `split(' ')[-1]` is the text after the last space |
| Devices.LosetupExtractsLastWord | chromogenic/common.py:538-539 | whatever text precedes it, the word after the last space of the losetup output is the device, stripped |
| Edits.WithoutMatches | chromogenic/common.py:198-203 | `sed -i '/pat/d'`: no line left matches, every line left was in the file, and the file does not grow |
| Edits.WithoutMatchesIdempotent | chromogenic/common.py:198-203 | deleting matching lines twice is deleting them once |
| Edits.WithoutMatchesKeeps | chromogenic/common.py:198-203 | a line that does not match survives the deletion |
| Edits.Substituted | chromogenic/common.py:191-196 | `sed -i 's/find/rep/'`: the number of lines is kept; a line that does not match is unchanged and a matching line is rewritten by the substitution |
| Edits.RangeDeleted | chromogenic/common.py:183-189 | `sed -i '/from/,/to/d'`: the file does not grow and no line left matches the opening pattern |
| Edits.RangeToEndOfFile | chromogenic/common.py:183-189 | a range that is open and never closed deletes everything to the end of the file |
| Edits.RangeKeepsPrefix | chromogenic/common.py:183-189 | the lines before the first opening line are kept as they are |
| Edits.DeleteToEndOfFile | chromogenic/common.py:183-189 | with an empty closing pattern (sed reuses the opening one), a file whose opening line occurs once is cut at that line |
| Edits.AppendTwice | chromogenic/common.py:205-228 | `sed_append` twice leaves the files as `sed_append` once, because the second call finds the line; on an existing non-empty file the whole state is the same |
| Edits.PrependTwice | chromogenic/common.py:214-228 | the same for `sed_prepend` |
| Edits.AppendEstablishes | chromogenic/common.py:205-228 | after a non-dry append to an existing non-empty file the line is in the file (compared stripped, as `_line_exists_in_file` does), and every other file is unchanged |
| Edits.RemoveTree | chromogenic/common.py:168-177 | `rm -rf path`: the path and everything below it are gone, and every other file is kept with its contents |
| Edits.RemoveEachRemoves | chromogenic/common.py:168-177 | none of the paths matched by the glob is left |
| Edits.RemoveEachShrinks | chromogenic/common.py:168-177 | removal never creates a file |
| Edits.RemoveEachDry | chromogenic/common.py:168-177 | a dry run removes nothing |
| Edits.WildcardRemove | chromogenic/common.py:168-177 | the loop over the glob's matches equals `rm -rf` on each match in turn |
| Edits.TruncateEachEmpties | chromogenic/common.py:157-166 | truncation keeps every file and empties each matched one |
| Edits.TruncateEachKeeps | chromogenic/common.py:157-166 | an empty file stays empty under further truncation |
| Edits.TruncateEachDry | chromogenic/common.py:157-166 | a dry run truncates nothing |
| Edits.WildcardOverwrite | chromogenic/common.py:157-166 | the loop over the glob's matches equals `truncate -s0` on each match in turn |
| Edits.CreateFile | chromogenic/common.py:140-155 | returns True exactly when the guest file did not exist; only then is it written, with the text's lines and a final newline; when it existed nothing changes |
| Edits.ApplyBatchConcat | chromogenic/common.py:396-481 | running two batches in turn is running their concatenation, so a batch applies its rules strictly in list order |
| Edits.ApplyBatchDry | chromogenic/common.py:396-481 | a dry-run batch changes no file and issues no command |
| Edits.RunBatch | chromogenic/common.py:396-481 | the `for` loop of every batch helper (`remove_files` … `prepend_line_in_files`) equals applying its rules in list order at their guest paths |
| Mount.DeviceSuffix | chromogenic/common.py:580-588 | the `device` group `[\w/]+` before " on ": the longest suffix of the first word made of word characters and '/' |
| Mount.LastType | chromogenic/common.py:580-588 | the greedy `.*` of the location runs to the last "type" word: the index found holds "type", and no later one does |
| Mount.MountLine | chromogenic/common.py:580-588 | a matched `mount` line has a non-empty device and "on" as its second word |
| Mount.LastMatchWins | chromogenic/common.py:581-590 | the device of the last line that mounts the mount point is the one returned |
| Mount.NoMatchNoDevice | chromogenic/common.py:581-590 | None is returned exactly when no line mounts the mount point |
| Mount.MountTarget | chromogenic/common.py:575-577 | one trailing '/' is dropped from the mount point; a mount point without one is kept |
| Mount.CheckMounted | chromogenic/common.py:573-590 | the line-by-line loop equals the reference scan, having run `mount` exactly once |
| Mount.PartedFsType | chromogenic/common.py:673-690 | None exactly for empty output, an error, an unrecognised disk label or an I/O error; otherwise xfs before ext3 before ext4; it raises exactly when none of these is printed, and then parted runs a second time; no file changes |
| Mount.CountRunsConcat | chromogenic/common.py:693-697 | counting the runs of a program distributes over concatenated logs |
| Mount.ProbesRunNoXfs | chromogenic/common.py:769-779 | the device probes never run `xfs_admin` |
| Mount.RunsInAppend | chromogenic/common.py:693-697 | appending commands runs the program as often as they name it |
| Mount.ExtendsTrans | chromogenic/common.py:85-127 | a log only grows: growth composes over successive steps |
| Mount.RunsInTrans | chromogenic/common.py:693-697 | program counts add up over successive steps |
| Mount.PlaceOnPartition | chromogenic/common.py:705-708 | past the partition lookup: no `xfs_admin` is run, and a probed filesystem type is xfs, ext3 or ext4 |
| Mount.ProbeTry | chromogenic/common.py:704-708 | the `try` body runs no `xfs_admin`, and its filesystem type is xfs, ext3 or ext4 when there is one |
| Mount.QcowPlacement | chromogenic/common.py:704-713 | the placement is the `try` body's when that succeeds; on any exception it is the nbd device itself, offset 0 and no filesystem type |
| Mount.AttemptMount | chromogenic/common.py:728-740 | issues exactly the mount command, and succeeds exactly when it prints nothing on stderr |
| Mount.QcowMountSteps | chromogenic/common.py:714-726 | the mounting steps only add commands to the log |
| Mount.QcowMountOrder | chromogenic/common.py:714-726 | a direct mount that succeeds returns (True, nbd) at once; a failed one is retried on the nbd device with "offset=N,nouuid", and success returns (True, nbd); when both fail the device is detached with `qemu-nbd -d` and (False, None) is returned |
| Mount.QcowStepsXfsOnce | chromogenic/common.py:714-726 | the steps run `xfs_admin` once for an xfs placement and never otherwise |
| Mount.QcowAttach | chromogenic/common.py:700-702 | finding an nbd device and attaching the image run no `xfs_admin` |
| Mount.MountQcowSpec | chromogenic/common.py:699-726 | the reference `mount_qcow` only adds commands to the log |
| Mount.MountQcowDevice | chromogenic/common.py:699-726 | `mount_qcow` raises exactly when every nbd device is in use; on success it reports the lowest free device; on failure it reports None |
| Mount.MountQcowXfsOnce | chromogenic/common.py:699-726 | over the whole of `mount_qcow`, `_init_xfs` runs exactly once when the probed filesystem is xfs and never otherwise |
| Mount.MountQcow | chromogenic/common.py:699-726 | the imperative `mount_qcow` equals the reference `MountQcowSpec` |
| Mount.OffsetMountOn | chromogenic/common.py:802-811 | the steps past the listing only add commands to the log |
| Mount.OffsetMountSpec | chromogenic/common.py:800-811 | the reference `mount_raw_with_offsets` only adds commands to the log |
| Mount.OffsetMountAtPartition | chromogenic/common.py:804-811 | for a listing with a unit size and a first partition start, the loop mount is issued at their product as offset; it raises exactly when it prints on stderr, and returns its streams otherwise |
| Mount.OffsetMountNeedsListing | chromogenic/common.py:802-803 | an empty listing raises "Cannot mount … as a raw image. Is it a QCOW?" before any mount |
| Mount.MountRawWithOffsets | chromogenic/common.py:800-811 | the imperative `mount_raw_with_offsets` equals its reference |
| Mount.MountRawSpec | chromogenic/common.py:782-798 | the reference `mount_raw` only adds commands to the log |
| Mount.RawTrueOnOtherErrors | chromogenic/common.py:782-798 | unless the loop mount asks for the filesystem type, `mount_raw` returns True after the one loop mount, whatever else stderr says |
| Mount.RawRetryThenQcow | chromogenic/common.py:785-792 | when the filesystem type is asked for, the offset mount's streams are returned if it succeeds; if it raises, the exception is re-raised without `attempt_qcow`, and with it the result is `mount_qcow`'s |
| Mount.MountRaw | chromogenic/common.py:782-798 | the imperative `mount_raw` equals its reference |
| Mount.TypeByMetadata | chromogenic/common.py:541-547 | runs `file` once; the type is "qcow" exactly when the output mentions qcow in any case, and "img" otherwise |
| Mount.ByExtension | chromogenic/common.py:561-571 | the extension guess only adds commands to the log |
| Mount.MetadataFirst | chromogenic/common.py:556-560 | `file` always runs first; a qcow verdict with a free nbd device decides the result through `mount_qcow`, and the extension is not looked at |
| Mount.UnknownExtensionRaises | chromogenic/common.py:562-571 | an image that is not qcow by metadata and whose extension is not .qcow, .qcow2, .raw or .img raises after running only `file` |
| Mount.DetectAndMountImage | chromogenic/common.py:556-571 | the imperative `_detect_and_mount_image` equals its reference |
| Mount.MountByExtension | chromogenic/common.py:561-571 | the imperative extension guess equals the reference `ByExtension`: qcow extensions go to `mount_qcow`, raw and img to `mount_raw` with the qcow fallback, any other extension raises |
| Mount.FileRunsFirst | chromogenic/common.py:541-559 | whichever route mounts the image, the first command run is `file` on it |
| Mount.MountImageNeedsRoot | chromogenic/common.py:350-352 | a caller that is not root gets an exception, and nothing is run or changed |
| Mount.MountImage | chromogenic/common.py:350-355 | `mount_image` equals its reference: only root may mount, and root goes on to `_detect_and_mount_image` |
| Guest.DistroOf | chromogenic/common.py:498-503 | the distribution is centos, ubuntu or unknown; centos exactly when the release text mentions centos in any case; ubuntu exactly when it mentions ubuntu and not centos |
| Guest.CheckDistro | chromogenic/common.py:492-503 | `cat` of the guest's release files is issued once, and its output decides the distribution |
| Guest.LastRamdiskWins | chromogenic/common.py:312-319 | the last usable ramdisk line of the boot listing is chosen, with the version it carries |
| Guest.NoRamdiskEmpty | chromogenic/common.py:312-319 | the chosen ramdisk is empty exactly when no line is a usable ramdisk; for a distribution other than ubuntu or centos nothing is ever chosen |
| Guest.UnknownDistroNoRamdisk | chromogenic/common.py:306-323 | for any distribution but ubuntu and centos, `get_latest_ramdisk` raises "Could not determine the latest ramdisk" |
| Guest.GetLatestRamdisk | chromogenic/common.py:306-323 | the loop over the listing equals the reference scan, whose properties are the lemmas above |
| Guest.DropPrefix | chromogenic/common.py:316 | removing a prefix that does not recur in the rest gives back the rest |
| Guest.UbuntuRamdiskRoundTrip | chromogenic/common.py:270-281 | an ubuntu ramdisk "initrd.img-V" yields version V, and `_copy_ramdisk` rebuilds from V exactly the file that was found |
| Guest.FlagsConcat | chromogenic/common.py:242-245 | the flags of concatenated module lists are the flags of the first list followed by those of the second |
| Guest.MkinitrdCommand | chromogenic/common.py:231-247 | the caller's lists come back extended by ahci and by the six virtio modules, and the command line is built from the extended lists |
| Guest.MkinitrdKeepsOrder | chromogenic/common.py:237-247 | for centos (mkinitrd) and ubuntu (mkinitramfs), every module appears in the command line in list order, preloads before includes, and then " -f /boot/<ramdisk> <version>" |
| Guest.DefaultListsAccumulate | chromogenic/common.py:231-235 | the default lists are shared between calls: the second call with the defaults preloads ahci twice and lists the virtio modules twice |
| Guest.RebuildBracketed | chromogenic/common.py:283-303 | `rebuild_ramdisk` raises exactly when no ramdisk is found; when one is found the distribution is ubuntu or centos, so the command line builds, and mkinitrd runs inside the chroot between the four guest mounts and their four unmounts |
| Guest.RebuildRamdisk | chromogenic/common.py:283-303 | the imperative `rebuild_ramdisk` equals its reference, including the extended lists handed back |
| Guest.RetrieveCopiesBoth | chromogenic/common.py:249-281 | `retrieve_kernel_ramdisk` raises exactly when no ramdisk is found; otherwise `/bin/cp` copies the ramdisk and then the kernel out of the guest's /boot to the returned paths, and the kernel "vmlinuz-V" and the ramdisk of the same version V are returned under their directories |
| Chroot.UnmountsMatchMounts | chromogenic/common.py:622-641 | there are four mounts and four unmounts, and the i-th unmount releases the target of the i-th mount |
| Chroot.PrepareChrootEnv | chromogenic/common.py:633-641 | issues exactly the four mounts of /proc, /sys, /dev and /etc/resolv.conf, whatever the dry-run flag |
| Chroot.RemoveChrootEnv | chromogenic/common.py:622-630 | issues exactly the four unmounts |
| Chroot.InChroot | chromogenic/common.py:462-465 | a command whose program already mentions chroot is kept; any other is prefixed with `/usr/sbin/chroot mp` |
| Chroot.ChrootLoopEffect | chromogenic/common.py:459-467 | the loop issues the commands up to the first empty one (none on a dry run), and raises exactly when some command list is empty |
| Chroot.ChrootBracket | chromogenic/common.py:455-470 | with commands, the four mounts come first and the four unmounts always last, also when the loop raises; between them come the commands, prefixed with chroot where needed; no file is touched |
| Chroot.ChrootIssuedAll | chromogenic/common.py:459-467 | without an empty command list, every command is issued, in order |
| Chroot.ExecuteChrootCommands | chromogenic/common.py:455-470 | the imperative loop with its `finally` equals the reference bracket |
| Clean.PerformCleaningOrder | chromogenic/clean.py:162-176 | with the five unguarded lists given, `_perform_cleaning` is one batch: removals, truncations, single-line deletions, replacements, range deletions and appends, in that order, followed by the chroot commands when there are any |
| Clean.MissingListRaises | chromogenic/clean.py:162-176 | a plan that leaves one of the five unguarded lists as None raises the TypeError of iterating None at that helper; with no removal list nothing at all is done |
| Clean.AppendComesLast | chromogenic/clean.py:170-176 | a single appended line is written after every other edit, so no range deletion of the plan removes it: a non-empty target file holds the line afterwards |
| Clean.SingleAppend | chromogenic/common.py:396-402 | a batch of one append rule is one `sed_append` at the rule's guest path |
| Clean.PerformCleaning | chromogenic/clean.py:162-176 | the imperative `_perform_cleaning` equals its reference |
| Clean.MountedGuard | chromogenic/clean.py:22-23 | the guard runs `mount` once and passes exactly when `check_mounted` finds a device |
| Clean.CloudUser | chromogenic/clean.py:24-34 | there is a cloud user exactly when the distribution name holds ubuntu or centos; ubuntu is checked first, so centos only without ubuntu |
| Clean.DistroNames | chromogenic/common.py:492-503 | of the three distribution names, only "ubuntu" holds "ubuntu" and only "centos" holds "centos" |
| Clean.UserDataEffect | chromogenic/clean.py:17-60 | on a mounted guest of unknown distribution it raises having read the release files only; otherwise it runs the batch, then deletes the cloud user and the author (when named) inside the chroot bracket (nothing on a dry run), and succeeds |
| Clean.UserCleaningEffect | chromogenic/clean.py:54-60 | the user plan with account deletions is its batch followed by the deletions inside the chroot bracket |
| Clean.UserDelIssued | chromogenic/clean.py:45-49 | the deletions are never empty command lists, and each is issued through chroot |
| Clean.RemoveUserData | chromogenic/clean.py:17-60 | the imperative `remove_user_data` equals its reference |
| Clean.AtmoRestoresIncludedir | chromogenic/clean.py:95-108 | deleting from the old includedir line to the end of the file does not lose the includedir line: on a mounted guest whose sudoers file is non-empty after the deletions, `remove_atmo_data` succeeds and the line is in the file |
| Clean.RemoveAtmoData | chromogenic/clean.py:63-115 | the imperative `remove_atmo_data` equals its reference |
| Clean.VmDataEffect | chromogenic/clean.py:126-159 | on a mounted guest, avahi-daemon is purged first (also on a dry run, since the package step ignores the flag), then the batch runs and the plan succeeds |
| Clean.RemoveVmSpecificData | chromogenic/clean.py:118-159 | the imperative `remove_vm_specific_data` equals its reference |
| Clean.PlansNeedMount | chromogenic/clean.py:22-23 | each of the three plans raises at once when the path is not mounted, having run only `mount` and touched no file |
| Clean.ToolRunsOnDistro | chromogenic/clean.py:180-182 | a tool runs exactly when the lowered distribution name contains its distribution |
| Clean.UninstallEffect | chromogenic/clean.py:179-201 | the release files are read; the packages are removed, in order and inside the chroot bracket, exactly when the distribution is the tool's; otherwise nothing more runs |
| Clean.Uninstall | chromogenic/clean.py:179-201 | the imperative `yum_uninstall` / `apt_uninstall` loop equals its reference |
| Clean.RemoveLdap | chromogenic/clean.py:203-209 | `yum remove -qy openldap` runs inside the chroot bracket, and no file changes |
| Clean.ResetRootPassword | chromogenic/clean.py:211-217 | `echo <password> \| passwd root --stdin` runs inside the chroot bracket, and no file changes |
| Migration.AppendKeepsLine | chromogenic/common.py:205-212 | appending a line keeps every line already in the file |
| Migration.GettyAppendsRun | chromogenic/drivers/migration.py:166-209 | the getty append rules are the two serial getty lines appended in turn |
| Migration.DebianGetty | chromogenic/drivers/migration.py:166-209 | a missing getty.conf is created from the script and nothing is appended; an existing one gets the two serial getty lines appended, and a non-empty one then holds both |
| Migration.DebianMount | chromogenic/drivers/migration.py:166-209 | the imperative `debian_mount` equals its reference |
| Migration.RhelMountOrder | chromogenic/drivers/migration.py:212-255 | `rhel_mount` is one batch: appends, prepends, line removals, replacements and range deletions, in that order |
| Migration.RhelMount | chromogenic/drivers/migration.py:212-255 | the imperative `rhel_mount` equals its reference |
| Migration.ConvertUnmounts | chromogenic/drivers/migration.py:49-87 | every run of `convert` ends with `umount` of the mount point, also when a step raised; a mount that raises or reports errors raises ("Encountered errors mounting image:…") before the guest is inspected |
| Migration.ConvertChrootBracket | chromogenic/drivers/migration.py:55-85 | after a clean mount the distribution is read, the mount hook runs (for Xen2KVM the debian edits on ubuntu and the rhel edits on centos, as Migration.MountHook states), then the chroot hook (apt-get or yum install) sits between the four guest mounts and their release; the base plan's `get_kernel_ramdisk` returns None and the unpacking raises; the other plans continue with the kernel step from that state, and a successful body returns the image path with the kernel and ramdisk paths the step returned |
| Migration.Convert | chromogenic/drivers/migration.py:49-87 | the imperative `convert` equals its reference |
| Migration.ConvertAfterMount | chromogenic/drivers/migration.py:57-85 | the steps after the mount attempt equal the reference `ConvertBody`: a mount error raises at once, otherwise the distribution check, the hooks, the chroot bracket and the kernel step in that order |
| Migration.MountHook | chromogenic/drivers/migration.py:64-68 | the dispatch on the distribution equals `MountHookSpec`: debian edits for ubuntu, rhel edits for centos, nothing otherwise |
| Migration.KernelRamdisk | chromogenic/drivers/migration.py:80-81 | the kernel step equals `KernelRamdiskSpec`: the base plan raises because its None cannot be unpacked, the others rebuild the ramdisk and then copy the pair out |
| Naming.SanitizeName | chromogenic/drivers/eucalyptus.py:557 | the length is kept; no ' ' or '/' is left; every other character stays where it was; a position holds a new '_' exactly where the name had a ' ', and every '/' becomes '-' |
| Naming.SanitizeIdempotent | chromogenic/drivers/eucalyptus.py:557 | sanitising a sanitised name changes nothing |
| Naming.FormatMetaName | chromogenic/drivers/eucalyptus.py:552-559 | the meta name starts with "creator_owner_" and ends with "_" and the timestamp (the given one when truthy, else the clock); its length is the four parts plus three separators |
| Naming.MetaNameJoin | chromogenic/drivers/eucalyptus.py:558 | the meta name is the join at '_' of creator, owner, the pieces of the sanitised name, and the day and time of the timestamp |
| Naming.MetaNameSplit | chromogenic/drivers/eucalyptus.py:552-559 | for a creator, an owner and a `day_time` stamp free of '_', splitting the meta name at '_' gives at least five pieces: the first two are creator and owner, the last two are day and time, and the rest join back to the sanitised name |
| Eucalyptus.FormatNcPath | chromogenic/drivers/eucalyptus.py:561-563 | for plain relative parts, the path is prefix/owner/instance/disk; an absolute disk replaces everything before it |
| Eucalyptus.NcPathDefaults | chromogenic/drivers/eucalyptus.py:561-563 | with the defaults, an instance's disk is /usr/local/eucalyptus/<owner>/<instance>/root |
| Eucalyptus.RelativeFilename | chromogenic/drivers/eucalyptus.py:1077-1079 | the result holds no '/' and ends the filename; a name without '/' is returned whole, and for one with '/' the result follows the last '/' |
| Eucalyptus.IndexOf | chromogenic/drivers/eucalyptus.py:1104-1106 | the first index holding the start part |
| Eucalyptus.PartsFromSuffix | chromogenic/drivers/eucalyptus.py:1097-1107 | the uploaded parts are a suffix of the list; a start part that occurs is the first uploaded, and nothing before its first occurrence is uploaded |
| Eucalyptus.UploadParts | chromogenic/drivers/eucalyptus.py:1097-1120 | the `for` loop with its `okay_to_upload` flag uploads exactly `PartsFrom`: every part without a start part, otherwise the parts from its first occurrence on, and none when it does not occur |
| Eucalyptus.LastNodeIsLatest | chromogenic/drivers/eucalyptus.py:867-869 | the current node is the name of the last record that carries a name |
| Eucalyptus.LastNodeDefault | chromogenic/drivers/eucalyptus.py:864 | before any named record, the node is "" |
| Eucalyptus.InstancesGrouped | chromogenic/drivers/eucalyptus.py:872-878 | a node has a list exactly when some instance was seen on it, and its list holds exactly those instances, in record order |
| Eucalyptus.NodesCoverEntries | chromogenic/drivers/eucalyptus.py:870-873 | an instance is in the node map exactly when some record carries it as entry |
| Eucalyptus.NodesLastWins | chromogenic/drivers/eucalyptus.py:873 | a mapped instance goes to the node of the last record that carries it |
| Eucalyptus.BuildInstanceNcMap | chromogenic/drivers/eucalyptus.py:855-879 | the loop over the DescribeNodes records builds exactly the maps `NodesOf` and `InstancesOf` described by the lemmas above |
| Eucalyptus.PrivateUsers | chromogenic/drivers/eucalyptus.py:298-301 | the owner is always in the list; the caller's list is a prefix of the result, which grows by at most one, only by the owner; an owner already present leaves the list unchanged |
| Eucalyptus.PrivateUsersIdempotent | chromogenic/drivers/eucalyptus.py:298-301 | sharing twice with the same owner adds it once |
| Eucalyptus.ParseUploadArgs | chromogenic/drivers/eucalyptus.py:276-312 | the name, path and parent emi are copied; a given kernel or ramdisk overrides the instance's; `public` is the given flag; the private users are the given list with the owner appended unless present (just the owner by default); a given bucket name is kept, and the bucket defaults to the meta name built for creator "admin"; the destination is the given download dir |
| Eucalyptus.ImageFileName | chromogenic/drivers/eucalyptus.py:230-233 | the file name always ends in ".img"; for a name without ".manifest.xml" it is the name itself when it already ends in ".img", and otherwise the name with ".img" added |
| Eucalyptus.ManifestDownloadName | chromogenic/drivers/eucalyptus.py:230-233 | a bundle manifest "X.img.manifest.xml" downloads to "X.img" when "X.img" holds no ".manifest.xml" of its own |
| Eucalyptus.DownloadLocation | chromogenic/drivers/eucalyptus.py:225-249 | the location is <dir>/<image id>/<file name>, where dir is the given download dir or /tmp by default |
| Eucalyptus.ToImg | chromogenic/drivers/eucalyptus.py:1017-1028 | the location is kept; a named image is returned unchanged; an unnamed one always gets a name (every failure falls back to the location) |
| Eucalyptus.ToImgNoBucket | chromogenic/drivers/eucalyptus.py:1019-1026 | a location without '/' cannot be unpacked into bucket and manifest, so the location becomes the name |
| Eucalyptus.BucketSplit | chromogenic/drivers/eucalyptus.py:1020 | "bucket/manifest" splits into exactly its two parts |
| Eucalyptus.ToImgShortManifest | chromogenic/drivers/eucalyptus.py:1021-1026 | a manifest of fewer than five '_' pieces reaches the one-argument `replace`, which raises a TypeError, so the whole location becomes the name |
| Eucalyptus.ToImgLongManifest | chromogenic/drivers/eucalyptus.py:1017-1028 | an unnamed image at "bucket/manifest" whose manifest has five or more '_' pieces is named by the middle pieces joined with '_' |
| Eucalyptus.MetaNameLacksSlash | chromogenic/drivers/eucalyptus.py:552-559 | the meta name holds no '/' when creator, owner and timestamp hold none, because sanitising replaces every '/' in the name |
| Eucalyptus.ToImgRecoversName | chromogenic/drivers/eucalyptus.py:1017-1028 | naming round trip: an unnamed image stored at bucket/<meta name>, built by `_format_meta_name` with a `day_time` stamp, gets back the sanitised image name |
| Openstack.CleanPath | chromogenic/drivers/openstack.py:204-206 | the result is no longer than the name and holds only valid characters (letters, digits and `-_.() `) |
| Openstack.CleanPathConcat | chromogenic/drivers/openstack.py:204-206 | cleaning works character by character: it distributes over concatenation, so the kept characters stay in order |
| Openstack.CleanPathKeepsValid | chromogenic/drivers/openstack.py:204-206 | a name of valid characters only is kept whole |
| Openstack.CleanPathDropsInvalid | chromogenic/drivers/openstack.py:204-206 | a name without valid characters is cleaned to "" |
| Openstack.CleanPathIdempotent | chromogenic/drivers/openstack.py:204-206 | cleaning a cleaned name changes nothing |
| Openstack.ReadFileType | chromogenic/drivers/openstack.py:628-640 | `file` runs exactly once; a type returned is qcow2, qcow or img |
| Openstack.ReadFileTypeCases | chromogenic/drivers/openstack.py:628-640 | the lowered output decides: "qemu qcow" with "v2" is qcow2, without "v2" qcow, and everything else raises; the raw-image branch compares the lowered output with a needle holding an upper-case 'L', so "img" is never returned |
| Openstack.TenantStage | chromogenic/drivers/openstack.py:134-150 | key, secret and the tenant keys are popped in precedence order; a truthy tenant becomes project_name; location and router_name are gone; every other key is untouched |
| Openstack.PopTenant | chromogenic/drivers/openstack.py:134-150 | the pops on a copy of the credentials equal `TenantStage`, and the key and secret popped are the caller's |
| Openstack.FillLogin | chromogenic/drivers/openstack.py:151-154 | key and secret fill username and password only when those are not truthy already; nothing else changes |
| Openstack.AuthStage | chromogenic/drivers/openstack.py:155-164 | raises exactly when auth_url is missing or None, or when the URL lacks "/v2.0" and the auth version is None; otherwise only auth_url, version and project_name can change |
| Openstack.LoginKeepsAuth | chromogenic/drivers/openstack.py:134-155 | the URL step starts from the caller's auth_url and auth version |
| Openstack.ImageCredsRaises | chromogenic/drivers/openstack.py:133-164 | the conversion raises exactly when auth_url is missing or None, or the URL lacks "/v2.0" and the given auth version is None |
| Openstack.ImageCredsKeys | chromogenic/drivers/openstack.py:133-164 | the popped keys are gone, and every key the conversion does not rewrite keeps its value |
| Openstack.ImageCredsLogin | chromogenic/drivers/openstack.py:137-154 | the project is the first truthy of ex_tenant_name, tenant_name and ex_project_name; key and secret fill only a missing or empty username and password |
| Openstack.ImageCredsUrl | chromogenic/drivers/openstack.py:155-163 | a v2.0 URL only loses "/tokens"; otherwise a version mentioning '2' appends "/v2.0/" and sets version v2.0, and one mentioning '3' sets v3 and stores the tenant as project_name |
| Openstack.ImageCredsConvert | chromogenic/drivers/openstack.py:133-164 | the imperative sequence of pops and assignments on a copy equals the three steps in order |
| Openstack.BuildKeystoneCreds | chromogenic/drivers/openstack.py:706-719 | raises exactly when auth_url is missing or None; the URL loses "/v2.0", "/v3" and "/tokens" and gains the suffix of the auth version; project_name is the first present key of ex_tenant_name, ex_project_name and username; every other key is kept |
| Openstack.KeystoneDefaultsToV3 | chromogenic/drivers/openstack.py:709-714 | without an auth version, a base URL and its "/v2.0" form both end up as base + "/v3" |
| Openstack.AdminDriverCreds | chromogenic/drivers/openstack.py:651-664 | the version is 3.x_password or 2.0_password; region, router, admin URL and auth URL are copied; it raises exactly when auth_url is present as None (the `in` test fails) |
| Openstack.AdminVersionChoice | chromogenic/drivers/openstack.py:657-662 | without a given version, a "v3" URL means 3.x and any other 2.0; with one, a "v2.0" URL means 2.0 and any other 3.x, so changing the given value never changes the result |
| Openstack.ParseArgsUploadLocalImage | chromogenic/drivers/openstack.py:340-366 | raises exactly when neither `public` nor a visibility is given; visibility is "public" when only `public` is given, and not set when a visibility is given; kernel and ramdisk are copied only as a pair; formats default to ami; the private users are the given list, or none |
| Openstack.FindImage | chromogenic/drivers/openstack.py:869-872 | the result is no longer than the list, and every image in it matches the name |
| Openstack.FindImageExactly | chromogenic/drivers/openstack.py:869-872 | an image is found exactly when it is listed and its name matches, case-insensitively and whole, or as a substring when `contains` |
| Openstack.FindImageConcat | chromogenic/drivers/openstack.py:869-872 | the search keeps list order: it distributes over concatenation |
| Openstack.ExactWithinContains | chromogenic/drivers/openstack.py:869-872 | what an exact search finds, a substring search finds too |
| Openstack.ProgressHook.constructor | chromogenic/drivers/openstack.py:47-55 | a new wrapper has the total size, shows progress exactly for a non-zero size, starts at size 0 and percent 0 with last update -1, and has delivered no status |
| Openstack.ProgressHook.LogCurrentProgress | chromogenic/drivers/openstack.py:63-75 | without a hook nothing changes; with a hook and a new percent, the last update becomes the percent and its status is delivered once; a repeated percent delivers nothing; sizes, percent, hook and direction are unchanged |
| Virtualbox.UuidRun | chromogenic/drivers/virtualbox.py:156 | the greedy `[a-zA-Z0-9-]+`: the longest run of uuid characters that starts the text |
| Virtualbox.FirstUuidAt | chromogenic/drivers/virtualbox.py:157 | `regex.search`: the leftmost position at or after the start where "UUID: " is followed by a uuid character, or -1 |
| Virtualbox.StripUuid | chromogenic/drivers/virtualbox.py:154-159 | raises exactly when nothing matches (`None.groupdict()`); a uuid returned is non-empty and made of uuid characters |
| Virtualbox.StripUuidFinds | chromogenic/drivers/virtualbox.py:154-159 | the uuid VBoxManage prints after "UUID: " comes back whole, when the text before it has no 'U' and the run ends there |
| Virtualbox.UuidRunOf | chromogenic/drivers/virtualbox.py:156 | a run of uuid characters followed by a non-uuid character is measured exactly |
| Virtualbox.FileSizeGb | chromogenic/drivers/virtualbox.py:193-199 | the size in GB, rounded up: the bytes fit in that many GB but not in one fewer |
| Virtualbox.FileSizeGbIsCeiling | chromogenic/drivers/virtualbox.py:193-199 | a size gives `gb` exactly when it is the smallest whole number of GB that holds it (0 only for an empty file) |
| Virtualbox.ParseExportArgs | chromogenic/drivers/virtualbox.py:88-95 | download_location, image_name and format_type are renamed; the image is kept and not uploaded unless told otherwise, and given flags are copied |
| Virtualbox.CreateVirtualHarddrive | chromogenic/drivers/virtualbox.py:226-242 | vmdk is one qemu-img conversion; vdi converts to raw first unless the path mentions ".raw", then runs VBoxManage; the result is the stem with ".vmdk" (checked first) or ".vdi", and None with nothing run for another type |
| Virtualbox.HarddriveBesideInput | chromogenic/drivers/virtualbox.py:226-242 | a converted drive sits beside the input, under the same stem, ending in ".vmdk" or ".vdi" |
| Virtualbox.ExportImage | chromogenic/drivers/virtualbox.py:101-129 | without upload, raw and img return the input path and vmdk and vdi the converted drive; ova and ovf raise before anything runs; any success has a known format and no upload |
| Virtualbox.ExportOutcomes | chromogenic/drivers/virtualbox.py:101-129 | an export with upload never succeeds (the archive step names an unbound `appliance_path`), and vmdk and vdi always produce a drive |
| Version.RaiseEndsLoop | chromogenic/version.py:18-31 | once a prefix of the lines raises, the whole file raises the same error: the first failing line ends the loop |
| Version.ReadRequirements | chromogenic/version.py:15-35 | the loop over the file's lines equals the reference `Requirements` of its lines split at newline |
| Version.GitModeLines | chromogenic/version.py:15-35 | git mode never raises and yields exactly the lines holding "git+git", verbatim and in order |
| Version.PlainModeLines | chromogenic/version.py:15-35 | without git links, plain mode keeps every non-empty line, verbatim and in order |
| Version.EggName | chromogenic/version.py:23-31 | a git link "url#egg=name" contributes just the egg name in plain mode, and the whole line in git mode |
| Version.NumberLacksDot | chromogenic/version.py:66-75 | a printed number holds no '.' |
| Version.ShortVersionParses | chromogenic/version.py:66-76 | the short version parses back: split at '.', its pieces are the decimal numbers major, minor and, only when not zero, tertiary |
| Version.GetVersion | chromogenic/version.py:50-88 | short and normal return their strings; verbose appends " @" and the sha; all returns the map of branch ("major.minor"), short, normal, verbose and, with a non-zero tertiary, tertiary ("." and the number); every form after normal raises when `git_sha` gave None; an unknown form returns None |

## Left out

- Shell commands are not executed: `run_command` is the oracle `Env.respond`, and mount, losetup, qemu-nbd, qemu-img, fdisk, parted, sed, xfs_admin, fsck, mkfs, e2label and VBoxManage appear only as the commands they are given.
- The regular-expression, glob and sed engines are oracles (`Env.matches`, `Env.subst`, `Env.glob`). The regular expressions of `check_mounted`, the fdisk listing and `_strip_uuid`, and `str.split()`, are modelled by hand over characters and white-space tokens.
- `unmount_image`, `unmount_raw` and `unmount_qcow` are not modelled: they only issue fixed commands, and the brackets that matter are the chroot and mount ones.
- `fsck_image`, `fsck_img`, `fsck_qcow`, `create_empty_image`, `prepare_losetup`, `_format_partition`, `_mount_lvm` (an empty body), `copy_disk` and `qemu_convert` are left out: they drive external tools whose outputs the core does not interpret. Only the device parsing of `prepare_losetup` is modelled, as `Devices.LosetupExtractDevice`.
- `check_file` and `check_dir` are `os.path` tests on the host, so the model does not ask them.
- `_get_stage_files` is left out: it copies grub files from the installation directory, which is settings and host I/O.
- `apply_label` appears only as the `e2label` command that `convert` issues.
- `inject_*`, `touch_file` and `atmo_required_files` are outside the modelled core.
- Directory creation (`os.makedirs`, `check_dir` and the creation side of `build_imaging_dirs`) is not modelled: `ImagingDirs` gives only the paths.
- `check_root` is the parameter `isRoot`, because the effective user id comes from the operating system.
- Logging is not modelled: the library's logger calls have no effect on results.
- Concurrency is not modelled: nothing locks a probed device, so two processes probing at once can pick the same slot.
- The cloud clients are left out, because they are network and foreign-library calls. This covers boto, euca2ools, S3, glance, nova, keystone and scp, with their upload, bundle, register and download steps.
- `retrieve_snapshot` polling with `time.sleep` is left out for the same reason.
- `get_reservation` is left out: the kernel, ramdisk and owner it reads become parameters.
- The `DescribeNodes` reply that `_build_instance_nc_map` walks is left out: it is given as a list of node records.
- Eucalyptus.UploadParts: the file reads and S3 writes are not modelled. The model keeps only which parts are sent and in what order; `sys.exit` on an S3 error is not modelled.
- The eucalyptus `_check_mount_path` and `_readd_atmo_boot` are outside the modelled core. They belong to the export path, which is left out with the cloud clients.
- The eucalyptus `_get_parts` is not modelled: it parses manifest XML.
- `_display_progress_bar` and the float percentage `ProgressHook` computes are not modelled, because they are float arithmetic.
- Openstack.ProgressHook.LogCurrentProgress: the percent is an integer, so the status reads "Downloading - 50" where Python's float reads "Downloading - 50.0".
- Virtualbox.FileSizeGb: only the exact ceiling is modelled; a float rounding on very large sizes is not.
- Openstack.ParseArgsUploadLocalImage: the merge of `settings.INCLUDE_METADATA` into the result is not modelled, because it reads deployment configuration.
- The kwargs records give each key as present or `None`, so a key passed explicitly as `None` is the same as a key left out, except where the source distinguishes them with `in` (the credential maps are maps of options for that reason).
- Eucalyptus.ParseUploadArgs: it returns the new user list as a value. The source extends the caller's `private_user_list` in place, and that aliasing is not modelled.
- Machine.Run: a command that fails to start makes `run_command` return (None, None), because the exception from Popen is caught and logged. The model reads that as ("", ""), so the AttributeError or TypeError its callers then raise on the None stream (`err.lower()` in `_get_next_loop`, `'specify the filesystem' in err` in `mount_raw`, `out.lower()` in `check_distro` and the `file` tests, `split` on the outputs of `mount` and `fdisk`) is not modelled.
- Mount.MountRawWithOffsets: the message "Could not auto-mount the RAW partition" and the same message in `Mount.OffsetMountOn` leave out the `: %s` rendering of the partition dict. That text depends on Python 2's dict ordering, which is unspecified.
- Version.GetVersion: `form is "short"` is an identity test in Python; the model treats it as string equality, which is what CPython's interning gives for literals.
- Virtualbox.ExportImage: the upload path is modelled only as the exception it raises. The md5 hash, the tar archive and the S3 upload it would do are not modelled.
- `_build_new_export_vm`, `_copy_to_raw`, `_large_file_hash` and `_tarzip_image` are left out: they are VirtualBox, file-copy and archive I/O.
- The time stamp of `_format_meta_name` is the parameter `now`, because it comes from the clock.
- The virtualbox `_format_meta_name` (chromogenic/drivers/virtualbox.py:76-83) is the same code as the eucalyptus one, so `Naming` models both.
- The shared default lists of `_mkinitrd_command` and `rebuild_ramdisk` are explicit parameters. `Guest.MkinitrdCommand` and `Guest.RebuildRamdisk` return the extended lists, so a caller can thread them from call to call.
- Migration.KernelRamdisk: it drops the extended lists that `Guest.RebuildRamdisk` returns, and `Migration.Convert` takes the lists as parameters without returning them, so the model does not show the default lists growing across two `convert` calls; `Guest.DefaultListsAccumulate` states that growth for `rebuild_ramdisk` alone.
- The `read_requirements` file read and the `dependencies` and `git_dependencies` wrappers are left out: the model starts from the file's text.
- `git_sha` runs a subprocess, so the model takes its result as the parameter `sha`.
- `chromogenic/drivers/base.py`, `chromogenic/export.py`, `chromogenic/migrate.py` and `chromogenic/tasks.py` are not part of this model. They are orchestration over the cloud clients.
- `chromogenic/settings.py`, `chromogenic/virt_sysprep.py`, `setup.py` and `chromogenic/__init__.py` are not part of this model. They are configuration, a fixed command template and logging set-up.
