/** The pure helpers of the VirtualBox export driver: the UUID scraped from
    `VBoxManage createvm`, the file size in GB, export arguments, and the
    format dispatch of `export_image` with its disk conversions. */
module Virtualbox {
  import opened Outcomes
  import opened Text
  import opened Machine

  /** The characters of the uuid group `[a-zA-Z0-9-]`. */
  predicate IsUuidChar(c: char) {
    'a' <= c <= 'z' || 'A' <= c <= 'Z' || '0' <= c <= '9' || c == '-'
  }

  const UuidLabel := "UUID: "

  /** The regular expression matches at `i`: the label, then a uuid character. */
  predicate UuidAt(s: string, i: int) {
    OccursAt(s, UuidLabel, i) && i + 6 < |s| && IsUuidChar(s[i + 6])
  }

  /** The length of the run of uuid characters starting the string. */
  function UuidRun(s: string): (n: nat)
    ensures n <= |s|
    ensures forall k :: 0 <= k < n ==> IsUuidChar(s[k])
    ensures n < |s| ==> !IsUuidChar(s[n])
  {
    if s != [] && IsUuidChar(s[0]) then 1 + UuidRun(s[1..]) else 0
  }

  /** The leftmost match at or after `from`, or -1. */
  function FirstUuidAt(s: string, from: nat): (i: int)
    ensures i == -1 || (from <= i && UuidAt(s, i))
    ensures i == -1 ==> forall j :: from <= j ==> !UuidAt(s, j)
    ensures i >= 0 ==> forall j :: from <= j < i ==> !UuidAt(s, j)
    decreases |s| - from
  {
    if from >= |s| then -1
    else if UuidAt(s, from) then from
    else FirstUuidAt(s, from + 1)
  }

  /** `_strip_uuid(createvm_output)`: the greedy uuid group of the leftmost
      match; without a match `r.groupdict()` fails on None. */
  function StripUuid(out: string): (r: Outcome<string>)
    ensures r.Raised? <==> forall j :: !UuidAt(out, j)
    ensures r.Ok? ==> r.value != [] && forall k :: 0 <= k < |r.value| ==> IsUuidChar(r.value[k])
  {
    var i := FirstUuidAt(out, 0);
    if i < 0 then Raised("AttributeError: 'NoneType' object has no attribute 'groupdict'")
    else
      var rest := out[i + 6..];
      Ok(rest[..UuidRun(rest)])
  }

  /** The uuid VBoxManage prints comes back whole: after text without a 'U', the
      label and a maximal run of uuid characters yield that run. */
  lemma StripUuidFinds(pre: string, uuid: string, post: string)
    requires forall k :: 0 <= k < |pre| ==> pre[k] != 'U'
    requires uuid != [] && forall k :: 0 <= k < |uuid| ==> IsUuidChar(uuid[k])
    requires post == [] || !IsUuidChar(post[0])
    ensures StripUuid(pre + UuidLabel + uuid + post) == Ok(uuid)
  {
    var s := pre + UuidLabel + uuid + post;
    var n := |pre|;
    assert s[n..n + 6] == UuidLabel;
    assert s[n + 6] == uuid[0];
    assert UuidAt(s, n);
    forall j | 0 <= j < n ensures !UuidAt(s, j) {
      assert s[j..j + 6][0] == s[j] == pre[j];
    }
    assert FirstUuidAt(s, 0) == n;
    var rest := s[n + 6..];
    assert rest == uuid + post;
    UuidRunOf(uuid, post);
  }

  lemma {:induction false} UuidRunOf(uuid: string, post: string)
    requires forall k :: 0 <= k < |uuid| ==> IsUuidChar(uuid[k])
    requires post == [] || !IsUuidChar(post[0])
    ensures UuidRun(uuid + post) == |uuid| && (uuid + post)[..|uuid|] == uuid
    decreases |uuid|
  {
    if uuid != [] {
      assert (uuid + post)[1..] == uuid[1..] + post;
      UuidRunOf(uuid[1..], post);
    } else {
      assert uuid + post == post;
    }
  }

  const OneGb: nat := 1024 * 1024 * 1024

  /** `_get_file_size_gb(filename)` for a file of `bytes` bytes: the size in GB
      rounded up. */
  function FileSizeGb(bytes: nat): (gb: nat)
    ensures (gb - 1) * OneGb < bytes <= gb * OneGb || (bytes == 0 && gb == 0)
  {
    (bytes + OneGb - 1) / OneGb
  }

  /** Exactly the sizes that fit in `gb` GB, and no fewer GB, give `gb`. */
  lemma FileSizeGbIsCeiling(bytes: nat, gb: nat)
    ensures FileSizeGb(bytes) == gb <==> (bytes == 0 && gb == 0) || (gb > 0 && (gb - 1) * OneGb < bytes <= gb * OneGb)
  {
    var r := FileSizeGb(bytes);
    if gb > 0 && (gb - 1) * OneGb < bytes <= gb * OneGb && r > 0 {
      assert (r - 1) * OneGb < gb * OneGb && (gb - 1) * OneGb < r * OneGb;
    }
  }

  /** The keyword arguments `parse_export_args` reads (None: not passed). */
  datatype ExportKwargs = ExportKwargs(downloadLocation: Option<string>, imageName: Option<string>,
    formatType: Option<string>, keepImage: Option<bool>, upload: Option<bool>)

  datatype ExportArgs = ExportArgs(imageLocation: Option<string>, imageName: Option<string>,
    exportFormat: Option<string>, keepImage: bool, upload: bool)

  /** `parse_export_args(**kwargs)`: renames download_location and format_type,
      keeps the image and does not upload unless told otherwise. */
  function ParseExportArgs(kw: ExportKwargs): (r: ExportArgs)
    ensures r.imageLocation == kw.downloadLocation && r.exportFormat == kw.formatType && r.imageName == kw.imageName
    ensures kw.keepImage.None? ==> r.keepImage
    ensures kw.upload.None? ==> !r.upload
    ensures kw.keepImage.Some? ==> r.keepImage == kw.keepImage.value
    ensures kw.upload.Some? ==> r.upload == kw.upload.value
  {
    ExportArgs(kw.downloadLocation, kw.imageName, kw.formatType,
      if kw.keepImage.Some? then kw.keepImage.value else true,
      if kw.upload.Some? then kw.upload.value else false)
  }

  /** The conversions `_create_virtual_harddrive` issues for a disk type. */
  function HarddriveCmds(path: string, diskType: string): seq<Cmd> {
    var base := SplitExt(path).0;
    if Contains(diskType, "vmdk") then [["qemu-img", "convert", path, "-O", "vmdk", base + ".vmdk"]]
    else if Contains(diskType, "vdi") then
      (if Contains(path, ".raw") then [] else [["qemu-img", "convert", path, "-O", "raw", base + ".raw"]]) +
      [["VBoxManage", "convertdd", base + ".raw", base + ".vdi"]]
    else []
  }

  /** `_create_virtual_harddrive(local_img_path, disk_type)`: converts with
      qemu-img (and VBoxManage for vdi) next to the input, returning the new path;
      an unknown type converts nothing and yields None. */
  function CreateVirtualHarddrive(w: World, path: string, diskType: string): (res: (Option<string>, World))
    ensures res.1 == w.(log := w.log + HarddriveCmds(path, diskType))
    ensures Contains(diskType, "vmdk") ==> res.0 == Some(SplitExt(path).0 + ".vmdk")
    ensures !Contains(diskType, "vmdk") && Contains(diskType, "vdi") ==> res.0 == Some(SplitExt(path).0 + ".vdi")
    ensures !Contains(diskType, "vmdk") && !Contains(diskType, "vdi") ==> res == (None, w)
  {
    var base := SplitExt(path).0;
    if Contains(diskType, "vmdk") then
      (Some(base + ".vmdk"), Issue(w, [["qemu-img", "convert", path, "-O", "vmdk", base + ".vmdk"]], false))
    else if Contains(diskType, "vdi") then
      var w1 := if Contains(path, ".raw") then w else Issue(w, [["qemu-img", "convert", path, "-O", "raw", base + ".raw"]], false);
      (Some(base + ".vdi"), Issue(w1, [["VBoxManage", "convertdd", base + ".raw", base + ".vdi"]], false))
    else (None, w)
  }

  /** The converted drive replaces only the extension: it sits beside the input
      under the same stem. */
  lemma HarddriveBesideInput(path: string, diskType: string)
    requires CreateVirtualHarddrive(World([], map[]), path, diskType).0.Some?
    ensures var p := CreateVirtualHarddrive(World([], map[]), path, diskType).0.value;
      StartsWith(p, SplitExt(path).0) && StartsWith(path, SplitExt(path).0) &&
      (EndsWith(p, ".vmdk") || EndsWith(p, ".vdi"))
  {
    var base := SplitExt(path).0;
    assert path == base + SplitExt(path).1;
    assert path[..|base|] == base;
    var p := CreateVirtualHarddrive(World([], map[]), path, diskType).0.value;
    assert p[..|base|] == base;
    if Contains(diskType, "vmdk") {
      assert p[|p| - 5..] == ".vmdk";
    } else {
      assert p[|p| - 4..] == ".vdi";
    }
  }

  /** `export_image(local_img_path, vm_name, export_format, upload)`. raw/img need
      no conversion, vmdk/vdi are converted, ova/ovf raise; any other format
      leaves `completed_path` unbound. With upload the code refers to
      `appliance_path`, which no reachable branch binds. */
  function ExportImage(w: World, path: string, format: string, upload: bool): (res: (Outcome<(Option<string>, Option<string>)>, World))
    ensures format in {"raw", "img"} && !upload ==> res == (Ok((None, Some(path))), w)
    ensures format in {"vmdk", "vdi"} && !upload ==>
      res == (Ok((None, CreateVirtualHarddrive(w, path, format).0)), CreateVirtualHarddrive(w, path, format).1)
    ensures format in {"ova", "ovf"} ==> res == (Raised("OVA/OVF files lack a working implementation"), w)
    ensures res.0.Ok? ==> format in {"raw", "img", "vmdk", "vdi"} && !upload
  {
    if format in {"raw", "img"} then
      if upload then (Raised(UnboundAppliance), w) else (Ok((None, Some(path))), w)
    else if format in {"vmdk", "vdi"} then
      var (drive, w1) := CreateVirtualHarddrive(w, path, format);
      if upload then (Raised(UnboundAppliance), w1) else (Ok((None, drive)), w1)
    else if format in {"ova", "ovf"} then (Raised("OVA/OVF files lack a working implementation"), w)
    else (Raised("UnboundLocalError: local variable 'completed_path' referenced before assignment"), w)
  }

  const UnboundAppliance := "UnboundLocalError: local variable 'appliance_path' referenced before assignment"

  /** No export succeeds with upload, and the vmdk/vdi drives are always produced. */
  lemma ExportOutcomes(w: World, path: string, format: string)
    ensures ExportImage(w, path, format, true).0.Raised?
    ensures format in {"vmdk", "vdi"} ==> ExportImage(w, path, format, false).0.value.1.Some?
  {
    if format == "vdi" {
      assert !Contains("vdi", "vmdk");
      assert OccursAt("vdi", "vdi", 0);
    } else if format == "vmdk" {
      assert OccursAt("vmdk", "vmdk", 0);
    }
  }
}
