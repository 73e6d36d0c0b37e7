/** The pure helpers of the eucalyptus driver: bundle naming, node paths,
    resumable part selection, the instance-to-node map, upload and download
    arguments, and recovering an image name from its manifest location. */
module Eucalyptus {
  import opened Outcomes
  import opened Text
  import opened Machine
  import opened Naming

  /** `_format_nc_path(owner, instance_id, prefix, disk)`: `os.path.join` of the four parts. */
  function FormatNcPath(owner: string, instanceId: string, prefix: string, disk: string): (r: string)
    ensures owner != [] && owner[0] != '/' && instanceId != [] && instanceId[0] != '/' &&
      disk != [] && disk[0] != '/' && owner[|owner| - 1] != '/' && instanceId[|instanceId| - 1] != '/' &&
      prefix != [] && prefix[|prefix| - 1] != '/'
      ==> r == prefix + "/" + owner + "/" + instanceId + "/" + disk
    ensures disk != [] && disk[0] == '/' ==> r == disk
  {
    PathJoin(PathJoin(PathJoin(prefix, owner), instanceId), disk)
  }

  const NcPrefix := "/usr/local/eucalyptus"
  const NcDisk := "root"

  /** With the default prefix and disk, an instance's disk lives at
      /usr/local/eucalyptus/<owner>/<instance>/root. */
  lemma NcPathDefaults(owner: string, instanceId: string)
    requires owner != [] && owner[0] != '/' && owner[|owner| - 1] != '/'
    requires instanceId != [] && instanceId[0] != '/' && instanceId[|instanceId| - 1] != '/'
    ensures FormatNcPath(owner, instanceId, NcPrefix, NcDisk) == "/usr/local/eucalyptus/" + owner + "/" + instanceId + "/root"
  {
  }

  /** `_get_relative_filename(filename)`: the last '/'-separated component. */
  function RelativeFilename(f: string): (r: string)
    ensures !Contains(r, "/")
    ensures EndsWith(f, r)
    ensures !Contains(f, "/") ==> r == f
    ensures Contains(f, "/") ==> EndsWith(f, "/" + r)
  {
    var parts := SplitStr(f, "/");
    var r := parts[|parts| - 1];
    SplitPiecesLackSep(f, "/");
    JoinSplit(f, "/");
    if Contains(f, "/") then
      SplitPresent(f, "/");
      JoinLast("/", parts);
      var front := Join("/", parts[..|parts| - 1]);
      assert f == front + ("/" + r);
      assert f[|f| - |r|..] == r;
      r
    else
      SplitAbsent(f, "/");
      r
  }

  /** The index of the first element equal to `x`. */
  function IndexOf(parts: seq<string>, x: string): (i: nat)
    requires x in parts
    ensures i < |parts| && parts[i] == x
    ensures forall j :: 0 <= j < i ==> parts[j] != x
  {
    if parts[0] == x then 0 else 1 + IndexOf(parts[1..], x)
  }

  /** The parts `_upload_parts` sends: all of them without a (truthy) start part,
      otherwise those from the first occurrence of the start part on, and none when
      it does not occur. */
  function PartsFrom(parts: seq<string>, start: Option<string>): seq<string> {
    if !Truthy(start) then parts
    else if start.value in parts then parts[IndexOf(parts, start.value)..]
    else []
  }

  /** What resuming promises: the uploaded parts are a suffix of the list, and a
      present start part is the first one uploaded. */
  lemma PartsFromSuffix(parts: seq<string>, start: Option<string>)
    ensures var up := PartsFrom(parts, start); |up| <= |parts| && up == parts[|parts| - |up|..]
    ensures Truthy(start) && start.value in parts ==> PartsFrom(parts, start)[0] == start.value
    ensures Truthy(start) && start.value in parts ==>
      forall j :: 0 <= j < |parts| - |PartsFrom(parts, start)| ==> parts[j] != start.value
  {
  }

  /** `_upload_parts(bucket, directory, parts, part_to_start_from)`: returns the
      keys uploaded, in upload order. */
  method UploadParts(parts: seq<string>, start: Option<string>) returns (uploaded: seq<string>)
    ensures uploaded == PartsFrom(parts, start)
  {
    var okay := !Truthy(start);
    uploaded := [];
    for i := 0 to |parts|
      invariant okay <==> !Truthy(start) || start.value in parts[..i]
      invariant !okay ==> uploaded == []
      invariant okay && !Truthy(start) ==> uploaded == parts[..i]
      invariant okay && Truthy(start) ==> IndexOf(parts, start.value) < i && uploaded == parts[IndexOf(parts, start.value)..i]
    {
      if Some(parts[i]) == start {
        okay := true;
      }
      if okay {
        if Truthy(start) && !(start.value in parts[..i]) {
          assert parts[..i] + [parts[i]] == parts[..i + 1];
          assert IndexOf(parts, start.value) == i;
        }
        uploaded := uploaded + [parts[i]];
      }
      assert parts[..i + 1] == parts[..i] + [parts[i]];
    }
    assert parts[..|parts|] == parts;
  }

  /** One record of the DescribeNodes reply: `euca:name` (a node) and
      `euca:entry` (an instance on it), each possibly absent. */
  datatype NodeItem = NodeItem(name: Option<string>, entry: Option<string>)

  /** The most recent node name among the records, "" before any. */
  function LastNode(items: seq<NodeItem>): string {
    if items == [] then ""
    else
      var last := items[|items| - 1];
      if last.name.Some? then last.name.value else LastNode(items[..|items| - 1])
  }

  /** The last node is the name of the last named record, or "" when no record
      is named. */
  lemma {:induction false} LastNodeIsLatest(items: seq<NodeItem>, i: nat)
    requires i < |items| && items[i].name.Some?
    requires forall j :: i < j < |items| ==> items[j].name.None?
    ensures LastNode(items) == items[i].name.value
    decreases |items|
  {
    if i < |items| - 1 {
      LastNodeIsLatest(items[..|items| - 1], i);
    }
  }

  lemma {:induction false} LastNodeDefault(items: seq<NodeItem>)
    requires forall j :: 0 <= j < |items| ==> items[j].name.None?
    ensures LastNode(items) == ""
    decreases |items|
  {
    if items != [] {
      LastNodeDefault(items[..|items| - 1]);
    }
  }

  /** The node of the record at index `i`: the last name up to and including it. */
  function NodeAt(items: seq<NodeItem>, i: nat): string
    requires i < |items|
  {
    LastNode(items[..i + 1])
  }

  /** `nodes` after the records: every entry mapped to its node, a later record
      for the same entry replacing the earlier. */
  function NodesOf(items: seq<NodeItem>): map<string, string> {
    if items == [] then map[]
    else
      var prev := NodesOf(items[..|items| - 1]);
      var last := items[|items| - 1];
      if last.entry.Some? then prev[last.entry.value := LastNode(items)] else prev
  }

  /** `instances` after the records: each node mapped to its entries in order. */
  function InstancesOf(items: seq<NodeItem>): map<string, seq<string>> {
    if items == [] then map[]
    else
      var prev := InstancesOf(items[..|items| - 1]);
      var last := items[|items| - 1];
      if last.entry.None? then prev
      else
        var node := LastNode(items);
        prev[node := (if node in prev then prev[node] else []) + [last.entry.value]]
  }

  /** The entries of the records whose node is `node`, in record order. */
  function EntriesOn(items: seq<NodeItem>, node: string): seq<string> {
    if items == [] then []
    else
      var last := items[|items| - 1];
      EntriesOn(items[..|items| - 1], node) +
        (if last.entry.Some? && LastNode(items) == node then [last.entry.value] else [])
  }

  /** Each node's list holds exactly the instances seen on it, in encounter order,
      and only nodes with an instance have a list. */
  lemma {:induction false} InstancesGrouped(items: seq<NodeItem>, node: string)
    ensures node in InstancesOf(items) <==> EntriesOn(items, node) != []
    ensures node in InstancesOf(items) ==> InstancesOf(items)[node] == EntriesOn(items, node)
    decreases |items|
  {
    if items != [] {
      InstancesGrouped(items[..|items| - 1], node);
    }
  }

  /** An instance is mapped exactly when some record names it. */
  lemma {:induction false} NodesCoverEntries(items: seq<NodeItem>, e: string)
    ensures e in NodesOf(items) <==> exists i :: 0 <= i < |items| && items[i].entry == Some(e)
    decreases |items|
  {
    if items != [] {
      var init := items[..|items| - 1];
      NodesCoverEntries(init, e);
      if exists i :: 0 <= i < |items| && items[i].entry == Some(e) {
        var i :| 0 <= i < |items| && items[i].entry == Some(e);
        if i < |init| { assert init[i] == items[i]; }
      }
      if exists i :: 0 <= i < |init| && init[i].entry == Some(e) {
        var i :| 0 <= i < |init| && init[i].entry == Some(e);
        assert items[i] == init[i];
      }
    }
  }

  /** A mapped instance goes to the node of the last record that names it. */
  lemma {:induction false} NodesLastWins(items: seq<NodeItem>, e: string, i: nat)
    requires i < |items| && items[i].entry == Some(e)
    requires forall j :: i < j < |items| ==> items[j].entry != Some(e)
    ensures e in NodesOf(items) && NodesOf(items)[e] == NodeAt(items, i)
    decreases |items|
  {
    var init := items[..|items| - 1];
    if i < |init| {
      assert init[i] == items[i];
      assert init[..i + 1] == items[..i + 1];
      NodesLastWins(init, e, i);
    } else {
      assert items[..i + 1] == items;
    }
  }

  /** `_build_instance_nc_map()` over the DescribeNodes records. */
  method BuildInstanceNcMap(items: seq<NodeItem>) returns (nodes: map<string, string>, instances: map<string, seq<string>>)
    ensures nodes == NodesOf(items) && instances == InstancesOf(items)
  {
    var lastNode := "";
    nodes, instances := map[], map[];
    for i := 0 to |items|
      invariant lastNode == LastNode(items[..i])
      invariant nodes == NodesOf(items[..i]) && instances == InstancesOf(items[..i])
      invariant forall n :: n in instances ==> instances[n] != []
    {
      var inst := items[i];
      assert items[..i + 1][..i] == items[..i];
      assert items[..i + 1][i] == inst;
      if inst.name.Some? {
        lastNode := inst.name.value;
      }
      assert lastNode == LastNode(items[..i + 1]);
      if inst.entry.None? {
        assert InstancesOf(items[..i + 1]) == InstancesOf(items[..i]);
        continue;
      }
      var instanceId := inst.entry.value;
      assert InstancesOf(items[..i + 1]) ==
        instances[lastNode := (if lastNode in instances then instances[lastNode] else []) + [instanceId]];
      nodes := nodes[instanceId := lastNode];
      if lastNode in instances && instances[lastNode] != [] {
        instances := instances[lastNode := instances[lastNode] + [instanceId]];
      } else {
        assert lastNode !in instances;
        assert [] + [instanceId] == [instanceId];
        instances := instances[lastNode := [instanceId]];
      }
      assert instances == InstancesOf(items[..i + 1]);
    }
    assert items[..|items|] == items;
  }

  /** The optional arguments `parse_upload_args` reads (None: not passed);
      `public` is the truthiness of the passed value. */
  datatype UploadKwargs = UploadKwargs(kernel: Option<string>, ramdisk: Option<string>, public: bool,
    privateUsers: Option<seq<string>>, bucketName: Option<string>, downloadDir: Option<string>)

  datatype UploadArgs = UploadArgs(imageName: string, imagePath: string, parentEmi: string,
    kernel: string, ramdisk: string, public: bool, privateUsers: seq<string>,
    bucketName: string, destinationPath: Option<string>)

  /** The sharing list: the owner is added at the end unless already present. */
  function PrivateUsers(users: seq<string>, owner: string): (r: seq<string>)
    ensures owner in r
    ensures |users| <= |r| <= |users| + 1 && r[..|users|] == users
    ensures forall x :: x in r ==> x in users || x == owner
    ensures owner in users ==> r == users
  {
    if owner in users then users else users + [owner]
  }

  /** Sharing twice with the same owner adds it once. */
  lemma PrivateUsersIdempotent(users: seq<string>, owner: string)
    ensures PrivateUsers(PrivateUsers(users, owner), owner) == PrivateUsers(users, owner)
  {
  }

  /** `parse_upload_args(instance_id, image_name, image_path, **kwargs)` for an instance
      booted from `emi` with `kernel` and `ramdisk`, owned by `owner`; `now` is the clock. */
  function ParseUploadArgs(emi: string, kernel: string, ramdisk: string, owner: string,
                           imageName: string, imagePath: string, kw: UploadKwargs, now: string): (r: UploadArgs)
    ensures r.imageName == imageName && r.imagePath == imagePath && r.parentEmi == emi
    ensures r.kernel == (if kw.kernel.Some? then kw.kernel.value else kernel)
    ensures r.ramdisk == (if kw.ramdisk.Some? then kw.ramdisk.value else ramdisk)
    ensures r.public == kw.public
    ensures owner in r.privateUsers && (kw.privateUsers.None? ==> r.privateUsers == [owner])
    ensures kw.privateUsers.Some? ==> r.privateUsers == PrivateUsers(kw.privateUsers.value, owner)
    ensures kw.bucketName.None? ==> r.bucketName == FormatMetaName(imageName, owner, None, now, "admin")
    ensures kw.bucketName.Some? ==> r.bucketName == kw.bucketName.value
    ensures r.destinationPath == kw.downloadDir
  {
    var users := if kw.privateUsers.Some? then kw.privateUsers.value else [];
    UploadArgs(imageName, imagePath, emi,
      if kw.kernel.Some? then kw.kernel.value else kernel,
      if kw.ramdisk.Some? then kw.ramdisk.value else ramdisk,
      kw.public, PrivateUsers(users, owner),
      if kw.bucketName.Some? then kw.bucketName.value else FormatMetaName(imageName, owner, None, now, "admin"),
      kw.downloadDir)
  }

  const ManifestSuffix := ".manifest.xml"

  /** The file name `download_image_args` gives an image: ".manifest.xml" removed
      everywhere, and ".img" added unless the result already ends with it. */
  function ImageFileName(name: string): (r: string)
    ensures EndsWith(r, ".img")
    ensures !Contains(name, ManifestSuffix) && EndsWith(name, ".img") ==> r == name
    ensures !Contains(name, ManifestSuffix) && !EndsWith(name, ".img") ==> r == name + ".img"
  {
    var stripped := ReplaceAll(name, ManifestSuffix, "");
    assert !Contains(name, ManifestSuffix) ==> stripped == name by {
      if !Contains(name, ManifestSuffix) {
        ReplaceAbsent(name, ManifestSuffix, "");
      }
    }
    if EndsWith(stripped, ".img") then stripped
    else
      var r := stripped + ".img";
      assert r[|r| - 4..] == ".img";
      r
  }

  /** Only the last character of ".manifest.xml" is an 'l'. */
  lemma ManifestEndsOnlyOnce()
    ensures |ManifestSuffix| == 13 && ManifestSuffix[12] == 'l'
    ensures forall k :: 0 <= k < 12 ==> ManifestSuffix[k] != 'l'
  {
  }

  /** A bundle manifest name `X.img.manifest.xml` downloads to `X.img` when `X.img`
      holds no ".manifest.xml" of its own. */
  lemma ManifestDownloadName(x: string)
    requires !Contains(x + ".img", ManifestSuffix)
    ensures ImageFileName(x + ".img" + ManifestSuffix) == x + ".img"
  {
    var a := x + ".img";
    var s := a + ManifestSuffix;
    var n := |a|;
    ManifestEndsOnlyOnce();
    assert s[n..n + 13] == ManifestSuffix;
    forall j | 0 <= j < n ensures !OccursAt(s, ManifestSuffix, j) {
      if j + 13 <= n {
        assert a[j..j + 13] == s[j..j + 13];
        assert !OccursAt(a, ManifestSuffix, j);
      } else {
        assert s[j + 12] == ManifestSuffix[j + 12 - n] != 'l';
      }
    }
    var i := Find(s, ManifestSuffix);
    assert OccursAt(s, ManifestSuffix, n);
    assert i == n;
    assert s[..n] == a && s[n + 13..] == [];
    assert SplitStr(s, ManifestSuffix) == [a, ""];
    assert Join("", [a, ""]) == a;
    assert a[|a| - 4..] == ".img";
  }

  /** `download_image_args(image_id, download_dir=...)`: the download location
      `<dir>/<image_id>/<file name>`, where dir defaults to /tmp. */
  function DownloadLocation(imageId: string, name: string, downloadDir: Option<string>): (r: string)
    ensures downloadDir.None? && imageId != [] && imageId[0] != '/' && imageId[|imageId| - 1] != '/' &&
              ImageFileName(name)[0] != '/'
            ==> r == "/tmp/" + imageId + "/" + ImageFileName(name)
    ensures downloadDir.Some? && downloadDir.value != [] && downloadDir.value[|downloadDir.value| - 1] != '/' &&
              imageId != [] && imageId[0] != '/' && imageId[|imageId| - 1] != '/' && ImageFileName(name)[0] != '/'
            ==> r == downloadDir.value + "/" + imageId + "/" + ImageFileName(name)
  {
    PathJoin(PathJoin(if downloadDir.Some? then downloadDir.value else "/tmp", imageId), ImageFileName(name))
  }

  /** An image as `_to_img` sees it: its (possibly empty) name and its
      "bucket/manifest" location. */
  datatype Image = Image(name: Option<string>, location: string)

  /** `_to_img(image)`: an image without a name gets one from its location. For
      "bucket/manifest" with at least five '_' pieces in the manifest it is the
      pieces but the first two and the last two; every other location (no or
      several '/', fewer pieces, where the source's one-argument `replace` raises
      a TypeError) ends in the `except` branch and the name becomes the location. */
  function ToImg(img: Image): (r: Image)
    ensures r.location == img.location
    ensures Truthy(img.name) ==> r == img
    ensures !Truthy(img.name) ==> r.name.Some?
  {
    if Truthy(img.name) then img
    else
      var parts := SplitStr(img.location, "/");
      if |parts| != 2 then img.(name := Some(img.location))
      else
        var pieces := SplitStr(parts[1], "_");
        if |pieces| >= 5 then img.(name := Some(Join("_", pieces[2..|pieces| - 2])))
        else img.(name := Some(img.location))
  }

  /** A location without a '/' becomes the name. */
  lemma ToImgNoBucket(loc: string)
    requires !Contains(loc, "/")
    ensures ToImg(Image(None, loc)).name == Some(loc)
  {
    SplitAbsent(loc, "/");
  }

  /** `bucket/manifest` splits at its one '/'. */
  lemma BucketSplit(bucket: string, manifest: string)
    requires !Contains(bucket, "/") && !Contains(manifest, "/")
    ensures SplitStr(bucket + "/" + manifest, "/") == [bucket, manifest]
  {
    JoinCons("/", bucket, [manifest]);
    SplitJoinChar([bucket, manifest], '/');
  }

  /** A manifest with fewer than five '_' pieces gives the whole location as name. */
  lemma ToImgShortManifest(bucket: string, manifest: string)
    requires !Contains(bucket, "/") && !Contains(manifest, "/")
    requires |SplitStr(manifest, "_")| < 5
    ensures ToImg(Image(None, bucket + "/" + manifest)).name == Some(bucket + "/" + manifest)
  {
    BucketSplit(bucket, manifest);
  }

  /** The meta name of a bundle holds no '/' when its parts hold none. */
  lemma MetaNameLacksSlash(name: string, owner: string, stamp: string, creator: string)
    requires !Contains(creator, "/") && !Contains(owner, "/") && !Contains(stamp, "/")
    ensures !Contains(FormatMetaName(name, owner, Some(stamp), "", creator), "/")
  {
    var san := SanitizeName(name);
    CharAbsent(san, '/');
    CharAbsent("_", '/');
    ConcatLacksChar(creator, "_", '/');
    ConcatLacksChar(creator + "_", owner, '/');
    ConcatLacksChar(creator + "_" + owner, "_", '/');
    ConcatLacksChar(creator + "_" + owner + "_", san, '/');
    ConcatLacksChar(creator + "_" + owner + "_" + san, "_", '/');
    if stamp != "" {
      ConcatLacksChar(creator + "_" + owner + "_" + san + "_", stamp, '/');
    } else {
      ConcatLacksChar(creator + "_" + owner + "_" + san + "_", "", '/');
    }
  }

  /** Naming round trip: an unnamed image stored at `bucket/<meta name>`, whose
      meta name `_format_meta_name` built with a `day_time` timestamp, recovers the
      sanitised image name. */
  lemma ToImgRecoversName(bucket: string, name: string, owner: string, day: string, time: string, creator: string)
    requires !Contains(bucket, "/")
    requires !Contains(creator, "_") && !Contains(owner, "_") && !Contains(day, "_") && !Contains(time, "_")
    requires !Contains(creator, "/") && !Contains(owner, "/") && !Contains(day, "/") && !Contains(time, "/")
    ensures ToImg(Image(None, bucket + "/" + FormatMetaName(name, owner, Some(day + "_" + time), "", creator))).name
      == Some(SanitizeName(name))
  {
    var meta := FormatMetaName(name, owner, Some(day + "_" + time), "", creator);
    CharAbsent("_", '/');
    ConcatLacksChar(day, "_", '/');
    ConcatLacksChar(day + "_", time, '/');
    MetaNameLacksSlash(name, owner, day + "_" + time, creator);
    MetaNameSplit(name, owner, day, time, creator);
    ToImgLongManifest(bucket, meta, SanitizeName(name));
  }

  /** A manifest with five or more '_' pieces names the image by its middle pieces. */
  lemma ToImgLongManifest(bucket: string, manifest: string, middle: string)
    requires !Contains(bucket, "/") && !Contains(manifest, "/")
    requires var pieces := SplitStr(manifest, "_");
      |pieces| >= 5 && Join("_", pieces[2..|pieces| - 2]) == middle
    ensures ToImg(Image(None, bucket + "/" + manifest)).name == Some(middle)
  {
    BucketSplit(bucket, manifest);
    var parts := SplitStr(bucket + "/" + manifest, "/");
    assert |parts| == 2 && parts[1] == manifest;
  }
}
