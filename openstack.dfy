/** The pure helpers of the OpenStack driver: file-name cleaning, image type
    detection, the credential rewrites for glance, keystone and the admin
    driver, local upload arguments, image search, and the progress hook. */
module Openstack {
  import opened Outcomes
  import opened Text
  import opened Machine

  /** The characters `clean_path` keeps: "-_.() ", ASCII letters and digits. */
  predicate ValidPathChar(c: char) {
    c in "-_.() " || 'a' <= c <= 'z' || 'A' <= c <= 'Z' || '0' <= c <= '9'
  }

  /** `clean_path(image_name)`: the valid characters of the name, in order. */
  function CleanPath(name: string): (r: string)
    ensures |r| <= |name|
    ensures forall i :: 0 <= i < |r| ==> ValidPathChar(r[i])
    decreases |name|
  {
    if name == [] then []
    else (if ValidPathChar(name[0]) then [name[0]] else []) + CleanPath(name[1..])
  }

  /** Cleaning works character by character: it distributes over concatenation. */
  lemma {:induction false} CleanPathConcat(a: string, b: string)
    ensures CleanPath(a + b) == CleanPath(a) + CleanPath(b)
    decreases |a|
  {
    if a == [] {
      assert a + b == b;
    } else {
      assert (a + b)[0] == a[0];
      assert (a + b)[1..] == a[1..] + b;
      CleanPathConcat(a[1..], b);
    }
  }

  /** A name made of valid characters only is kept as it is. */
  lemma {:induction false} CleanPathKeepsValid(name: string)
    requires forall i :: 0 <= i < |name| ==> ValidPathChar(name[i])
    ensures CleanPath(name) == name
    decreases |name|
  {
    if name != [] {
      CleanPathKeepsValid(name[1..]);
    }
  }

  /** A name without valid characters is cleaned away entirely. */
  lemma {:induction false} CleanPathDropsInvalid(name: string)
    requires forall i :: 0 <= i < |name| ==> !ValidPathChar(name[i])
    ensures CleanPath(name) == ""
    decreases |name|
  {
    if name != [] {
      CleanPathDropsInvalid(name[1..]);
    }
  }

  /** Cleaning twice changes nothing more. */
  lemma CleanPathIdempotent(name: string)
    ensures CleanPath(CleanPath(name)) == CleanPath(name)
  {
    CleanPathKeepsValid(CleanPath(name));
  }

  function FileCmd(image: string): Cmd {
    ["file", image]
  }

  /** `_read_file_type(local_image)`: runs `file` once and classifies its output. */
  function ReadFileType(env: Env, w: World, image: string): (res: (Outcome<string>, World))
    ensures res.1 == w.(log := w.log + [FileCmd(image)])
    ensures res.0.Ok? ==> res.0.value in {"qcow2", "qcow", "img"}
  {
    var reply := Run(env, w, FileCmd(image), false);
    var out := reply.0.out;
    var lowered := Lower(out);
    var kind :=
      if Contains(lowered, "qemu qcow") then
        if Contains(lowered, "v2") then Ok("qcow2") else Ok("qcow")
      else if Contains(lowered, "Linux rev 1.0") && Contains(lowered, "ext") then Ok("img")
      else Raised("Could not guess the type of file. Output=" + out);
    (kind, reply.1)
  }

  /** The type follows the QEMU signature of the `file` output, whatever its case:
      "qemu qcow" with "v2" is qcow2, without it qcow, and all else raises. The
      raw-image branch tests a needle with an upper-case 'L' against lower-cased
      text, so it is never taken. */
  lemma ReadFileTypeCases(env: Env, w: World, image: string)
    ensures var lowered := Lower(env.respond(w.log, FileCmd(image)).out);
      var kind := ReadFileType(env, w, image).0;
      (kind == Ok("qcow2") <==> Contains(lowered, "qemu qcow") && Contains(lowered, "v2")) &&
      (kind == Ok("qcow") <==> Contains(lowered, "qemu qcow") && !Contains(lowered, "v2")) &&
      (kind.Raised? <==> !Contains(lowered, "qemu qcow")) &&
      kind != Ok("img")
  {
    LowerLacksUpper(env.respond(w.log, FileCmd(image)).out, "Linux rev 1.0", 0);
  }

  /** A credential dictionary: keys to strings or None. */
  type Creds = map<string, Option<string>>

  /** `creds.get(k)` / `creds.pop(k, None)`: the value, or None when absent. */
  function Get(c: Creds, k: string): Option<string> {
    if k in c then c[k] else None
  }

  /** `creds.get(k, d)`: a present key wins even when its value is None. */
  function GetOr(c: Creds, k: string, d: Option<string>): Option<string> {
    if k in c then c[k] else d
  }

  /** Key `k` has the same presence and value in both dictionaries. */
  predicate Kept(a: Creds, b: Creds, k: string) {
    (k in a <==> k in b) && (k in a ==> a[k] == b[k])
  }

  /** The tenant `_image_creds_convert` settles on: the first truthy one of
      ex_tenant_name, tenant_name, ex_project_name, else project_name as given. */
  function Tenant(c: Creds): Option<string> {
    if Truthy(Get(c, "ex_tenant_name")) then Get(c, "ex_tenant_name")
    else if Truthy(Get(c, "tenant_name")) then Get(c, "tenant_name")
    else if Truthy(Get(c, "ex_project_name")) then Get(c, "ex_project_name")
    else Get(c, "project_name")
  }

  /** The keys `_image_creds_convert` pops: tenant_name only when no ex_tenant_name
      was truthy, ex_project_name only when neither was. */
  function PoppedKeys(c: Creds): set<string> {
    {"key", "secret", "ex_tenant_name", "location", "router_name"} +
    (if !Truthy(Get(c, "ex_tenant_name")) then {"tenant_name"} else {}) +
    (if !Truthy(Get(c, "ex_tenant_name")) && !Truthy(Get(c, "tenant_name")) then {"ex_project_name"} else {})
  }

  /** The auth version `_image_creds_convert` reads, '2.0_password' when absent. */
  function ConvertAuthVersion(c: Creds): Option<string> {
    GetOr(c, "ex_force_auth_version", Some("2.0_password"))
  }

  const NoneNotIterable := "TypeError: argument of type 'NoneType' is not iterable"

  /** The first half of `_image_creds_convert`: pop key, secret and the tenant
      keys in precedence order, store a truthy tenant as project_name, and pop
      location and router_name. Returns the dictionary and the tenant. */
  function TenantStage(c: Creds): (r: (Creds, Option<string>))
    ensures r.1 == Tenant(c)
    ensures forall k :: k in PoppedKeys(c) ==> k !in r.0
    ensures forall k :: k !in PoppedKeys(c) && k != "project_name" ==> Kept(r.0, c, k)
    ensures Truthy(Tenant(c)) ==> Get(r.0, "project_name") == Tenant(c)
    ensures !Truthy(Tenant(c)) ==> Kept(r.0, c, "project_name")
  {
    var c1 := c - {"key", "secret", "ex_tenant_name"};
    var t1 := Get(c, "ex_tenant_name");
    var (c2, t2) := if Truthy(t1) then (c1, t1) else (c1 - {"tenant_name"}, Get(c1, "tenant_name"));
    var (c3, t3) := if Truthy(t2) then (c2, t2) else (c2 - {"ex_project_name"}, Get(c2, "ex_project_name"));
    var t4 := if Truthy(t3) then t3 else Get(c3, "project_name");
    var c4 := if Truthy(t4) then c3["project_name" := t4] else c3;
    (c4 - {"location", "router_name"}, t4)
  }

  /** The login step: key and secret fill username and password when those are
      not truthy already; nothing else changes. */
  function FillLogin(c: Creds, key: Option<string>, secret: Option<string>): (r: Creds)
    ensures Truthy(key) && !Truthy(Get(c, "username")) ==> Get(r, "username") == key
    ensures !(Truthy(key) && !Truthy(Get(c, "username"))) ==> Kept(r, c, "username")
    ensures Truthy(secret) && !Truthy(Get(c, "password")) ==> Get(r, "password") == secret
    ensures !(Truthy(secret) && !Truthy(Get(c, "password"))) ==> Kept(r, c, "password")
    ensures forall k :: k != "username" && k != "password" ==> Kept(r, c, k)
  {
    var c1 := if Truthy(key) && !Truthy(Get(c, "username")) then c["username" := key] else c;
    if Truthy(secret) && !Truthy(Get(c1, "password")) then c1["password" := secret] else c1
  }

  /** The identity step: the URL and version rewrite by the auth version. An
      absent auth_url raises KeyError, a None one (or a None version when it is
      read) a TypeError. */
  function AuthStage(c: Creds, tenant: Option<string>): (r: Outcome<Creds>)
    ensures r.Raised? <==> (Get(c, "auth_url").None? ||
      (!Contains(c["auth_url"].value, "/v2.0") && ConvertAuthVersion(c).None?))
    ensures r.Ok? ==> var url := c["auth_url"].value; var av := ConvertAuthVersion(c);
      forall k :: k !in {"auth_url", "version", "project_name"} ==> Kept(r.value, c, k)
  {
    var av := ConvertAuthVersion(c);
    if "auth_url" !in c then Raised("KeyError: 'auth_url'")
    else if c["auth_url"].None? then Raised(NoneNotIterable)
    else
      var url := c["auth_url"].value;
      if Contains(url, "/v2.0") then Ok(c["auth_url" := Some(ReplaceAll(url, "/tokens", ""))])
      else if av.None? then Raised(NoneNotIterable)
      else if Contains(av.value, "2") then Ok(c["auth_url" := Some(url + "/v2.0/")]["version" := Some("v2.0")])
      else if Contains(av.value, "3") then Ok(c["version" := Some("v3")]["project_name" := tenant])
      else Ok(c)
  }

  /** `_image_creds_convert(**kwargs)` as the three steps in order. */
  function ImageCredsSpec(kwargs: Creds): Outcome<Creds> {
    var (c, tenant) := TenantStage(kwargs);
    AuthStage(FillLogin(c, Get(kwargs, "key"), Get(kwargs, "secret")), tenant)
  }

  /** The dictionary the identity step starts from has the caller's auth_url and
      auth version. */
  lemma LoginKeepsAuth(kwargs: Creds)
    ensures var b := FillLogin(TenantStage(kwargs).0, Get(kwargs, "key"), Get(kwargs, "secret"));
      Kept(b, kwargs, "auth_url") && ConvertAuthVersion(b) == ConvertAuthVersion(kwargs)
  {
    var c := TenantStage(kwargs).0;
    assert Kept(c, kwargs, "auth_url") && Kept(c, kwargs, "ex_force_auth_version");
  }

  /** The conversion raises exactly when auth_url is missing or None, or when the
      URL lacks "/v2.0" and the auth version is None. */
  lemma ImageCredsRaises(kwargs: Creds)
    ensures ImageCredsSpec(kwargs).Raised? <==> (Get(kwargs, "auth_url").None? ||
      (!Contains(kwargs["auth_url"].value, "/v2.0") && ConvertAuthVersion(kwargs).None?))
  {
    LoginKeepsAuth(kwargs);
  }

  /** The popped keys are gone and every key the conversion does not rewrite is
      untouched. */
  lemma ImageCredsKeys(kwargs: Creds)
    requires ImageCredsSpec(kwargs).Ok?
    ensures var r := ImageCredsSpec(kwargs).value;
      (forall k :: k in PoppedKeys(kwargs) ==> k !in r) &&
      (forall k :: k !in PoppedKeys(kwargs) && k !in {"project_name", "username", "password", "auth_url", "version"} ==>
        Kept(r, kwargs, k))
  {
    var c := TenantStage(kwargs).0;
    var b := FillLogin(c, Get(kwargs, "key"), Get(kwargs, "secret"));
    var r := ImageCredsSpec(kwargs).value;
    assert r == AuthStage(b, TenantStage(kwargs).1).value;
    forall k | k in PoppedKeys(kwargs) ensures k !in r {
      assert k !in c && Kept(b, c, k) && Kept(r, b, k);
    }
    forall k | k !in PoppedKeys(kwargs) && k !in {"project_name", "username", "password", "auth_url", "version"}
      ensures Kept(r, kwargs, k)
    {
      assert Kept(c, kwargs, k) && Kept(b, c, k) && Kept(r, b, k);
    }
  }

  /** Tenant precedence, and key and secret filling only a missing (or not
      truthy) username and password. */
  lemma ImageCredsLogin(kwargs: Creds)
    requires ImageCredsSpec(kwargs).Ok?
    ensures var r := ImageCredsSpec(kwargs).value;
      (Truthy(Tenant(kwargs)) ==> Get(r, "project_name") == Tenant(kwargs)) &&
      (Truthy(Get(kwargs, "key")) && !Truthy(Get(kwargs, "username")) ==> Get(r, "username") == Get(kwargs, "key")) &&
      (Truthy(Get(kwargs, "secret")) && !Truthy(Get(kwargs, "password")) ==> Get(r, "password") == Get(kwargs, "secret"))
  {
    var c := TenantStage(kwargs).0;
    assert Kept(c, kwargs, "username") && Kept(c, kwargs, "password");
  }

  /** How auth_url and version come out: a v2.0 URL only loses "/tokens"; otherwise
      a version mentioning '2' appends "/v2.0/" and sets v2.0, and one mentioning
      '3' sets v3 and stores the tenant as project_name even when it is not truthy. */
  lemma ImageCredsUrl(kwargs: Creds)
    requires ImageCredsSpec(kwargs).Ok?
    ensures var r := ImageCredsSpec(kwargs).value; var url := kwargs["auth_url"].value;
      var av := ConvertAuthVersion(kwargs);
      if Contains(url, "/v2.0") then Get(r, "auth_url") == Some(ReplaceAll(url, "/tokens", ""))
      else if Contains(av.value, "2") then Get(r, "auth_url") == Some(url + "/v2.0/") && Get(r, "version") == Some("v2.0")
      else if Contains(av.value, "3") then Get(r, "auth_url") == Some(url) && Get(r, "version") == Some("v3") &&
        "project_name" in r && r["project_name"] == Tenant(kwargs)
      else Get(r, "auth_url") == Some(url)
  {
    LoginKeepsAuth(kwargs);
  }

  /** The first part of `_image_creds_convert(**kwargs)`: pops the key, the secret
      and the tenant keys from a copy of the credentials, one by one. */
  method PopTenant(kwargs: Creds) returns (creds: Creds, tenant: Option<string>, key: Option<string>, secret: Option<string>)
    ensures (creds, tenant) == TenantStage(kwargs)
    ensures key == Get(kwargs, "key") && secret == Get(kwargs, "secret")
  {
    creds := kwargs;
    key := Get(creds, "key");
    creds := creds - {"key"};
    secret := Get(creds, "secret");
    creds := creds - {"secret"};
    tenant := Get(creds, "ex_tenant_name");
    creds := creds - {"ex_tenant_name"};
    assert creds == kwargs - {"key", "secret", "ex_tenant_name"};
    if !Truthy(tenant) {
      tenant := Get(creds, "tenant_name");
      creds := creds - {"tenant_name"};
    }
    if !Truthy(tenant) {
      tenant := Get(creds, "ex_project_name");
      creds := creds - {"ex_project_name"};
    }
    if !Truthy(tenant) {
      tenant := Get(creds, "project_name");
    }
    if Truthy(tenant) {
      creds := creds["project_name" := tenant];
    }
    ghost var before := creds;
    creds := creds - {"location"};
    creds := creds - {"router_name"};
    assert creds == before - {"location", "router_name"};
  }

  /** `_image_creds_convert(**kwargs)`: pops from and assigns to a copy of the
      credentials, step by step. */
  method ImageCredsConvert(kwargs: Creds) returns (r: Outcome<Creds>)
    ensures r == ImageCredsSpec(kwargs)
  {
    var creds, tenant, key, secret := PopTenant(kwargs);
    if Truthy(key) && !Truthy(Get(creds, "username")) {
      creds := creds["username" := key];
    }
    if Truthy(secret) && !Truthy(Get(creds, "password")) {
      creds := creds["password" := secret];
    }
    ghost var filled := creds;
    var authVersion := GetOr(creds, "ex_force_auth_version", Some("2.0_password"));
    if "auth_url" !in creds {
      return Raised("KeyError: 'auth_url'");
    }
    var url := creds["auth_url"];
    if url.None? {
      return Raised(NoneNotIterable);
    }
    if Contains(url.value, "/v2.0") {
      creds := creds["auth_url" := Some(ReplaceAll(url.value, "/tokens", ""))];
    } else if authVersion.None? {
      return Raised(NoneNotIterable);
    } else if Contains(authVersion.value, "2") {
      creds := creds["auth_url" := Some(url.value + "/v2.0/")];
      creds := creds["version" := Some("v2.0")];
    } else if Contains(authVersion.value, "3") {
      creds := creds["version" := Some("v3")];
      creds := creds["project_name" := tenant];
    }
    return Ok(creds);
  }

  /** The URL `_build_keystone_creds` starts from: "/v2.0", "/v3" and "/tokens"
      removed, in that order. */
  function StripVersions(url: string): string {
    ReplaceAll(ReplaceAll(ReplaceAll(url, "/v2.0", ""), "/v3", ""), "/tokens", "")
  }

  /** The version suffix: "/v3" for '3.x_password' (also when no version is
      given), "/v2.0" for '2.0_password', nothing otherwise. */
  function KeystoneSuffix(c: Creds): string {
    var v := GetOr(c, "ex_force_auth_version", Some("3.x_password"));
    if v == Some("3.x_password") then "/v3" else if v == Some("2.0_password") then "/v2.0" else ""
  }

  /** The final project_name: the first present key of ex_tenant_name,
      ex_project_name, username (a present None counts), else None. */
  function KeystoneProject(c: Creds): Option<string> {
    GetOr(c, "ex_tenant_name", GetOr(c, "ex_project_name", GetOr(c, "username", None)))
  }

  /** `_build_keystone_creds(credentials)` on a copy of the credentials. */
  method BuildKeystoneCreds(credentials: Creds) returns (r: Outcome<Creds>)
    ensures r.Raised? <==> Get(credentials, "auth_url").None?
    ensures r.Ok? ==> Get(r.value, "auth_url") == Some(StripVersions(credentials["auth_url"].value) + KeystoneSuffix(credentials))
    ensures r.Ok? ==> "project_name" in r.value && r.value["project_name"] == KeystoneProject(credentials)
    ensures r.Ok? ==> forall k :: k != "auth_url" && k != "project_name" ==> Kept(r.value, credentials, k)
  {
    var ks := credentials;
    var ksVersion := GetOr(ks, "ex_force_auth_version", Some("3.x_password"));
    if "auth_url" !in ks {
      return Raised("KeyError: 'auth_url'");
    }
    if ks["auth_url"].None? {
      return Raised("AttributeError: 'NoneType' object has no attribute 'replace'");
    }
    var url := ReplaceAll(ReplaceAll(ReplaceAll(ks["auth_url"].value, "/v2.0", ""), "/v3", ""), "/tokens", "");
    ks := ks["auth_url" := Some(url)];
    if "project_name" !in ks {
      ks := ks["project_name" := GetOr(ks, "tenant_name", Some(""))];
    }
    if ksVersion == Some("3.x_password") {
      ks := ks["auth_url" := Some(url + "/v3")];
    } else if ksVersion == Some("2.0_password") {
      ks := ks["auth_url" := Some(url + "/v2.0")];
    } else {
      assert url + "" == url;
    }
    ks := ks["project_name" := GetOr(ks, "ex_tenant_name", GetOr(ks, "ex_project_name", GetOr(ks, "username", None)))];
    return Ok(ks);
  }

  /** Keystone moves to the v3 endpoint by default: with no auth version given,
      a base URL and its "/v2.0" form both become `base/v3`. */
  lemma KeystoneDefaultsToV3(base: string)
    requires !Contains(base, "/v2.0") && !Contains(base, "/v3") && !Contains(base, "/tokens")
    ensures StripVersions(base) == base && StripVersions(base + "/v2.0") == base
    ensures forall c: Creds :: "ex_force_auth_version" !in c ==> KeystoneSuffix(c) == "/v3"
  {
    ReplaceAbsent(base, "/v2.0", "");
    ReplaceAbsent(base, "/v3", "");
    ReplaceAbsent(base, "/tokens", "");
    var p := "/v2.0";
    assert forall k :: 1 <= k < |p| ==> p[k] != p[0];
    ReplaceTrailing(base, p);
  }

  /** What `_admin_driver_creds` builds. */
  datatype AdminCreds = AdminCreds(regionName: Option<string>, routerName: Option<string>,
    adminUrl: Option<string>, authUrl: Option<string>, authVersion: string)

  /** `_admin_driver_creds(**kwargs)`. The version test reads auth_url (default
      ""), and a None auth_url raises the TypeError of `in`. */
  function AdminDriverCreds(kwargs: Creds): (r: Outcome<AdminCreds>)
    ensures r.Ok? ==> r.value.authVersion in {"3.x_password", "2.0_password"}
    ensures r.Ok? ==> (r.value.regionName == Get(kwargs, "region_name") && r.value.routerName == Get(kwargs, "router_name") &&
      r.value.adminUrl == Get(kwargs, "admin_url") && r.value.authUrl == Get(kwargs, "auth_url"))
    ensures r.Raised? <==> GetOr(kwargs, "auth_url", Some("")).None?
  {
    var url := GetOr(kwargs, "auth_url", Some(""));
    var given := "ex_force_auth_version" in kwargs;
    var mk := (v: string) => AdminCreds(Get(kwargs, "region_name"), Get(kwargs, "router_name"),
      Get(kwargs, "admin_url"), Get(kwargs, "auth_url"), v);
    if url.None? then Raised(NoneNotIterable)
    else if !given && Contains(url.value, "v3") then Ok(mk("3.x_password"))
    else if !given || Contains(url.value, "v2.0") then Ok(mk("2.0_password"))
    else Ok(mk("3.x_password"))
  }

  /** The version choice: without a given version a "v3" URL means 3.x and any
      other URL 2.0; with one, only the URL decides ("v2.0" means 2.0, else 3.x),
      so the given value itself is never used. */
  lemma AdminVersionChoice(kwargs: Creds, v: Option<string>)
    requires GetOr(kwargs, "auth_url", Some("")).Some?
    ensures var url := GetOr(kwargs, "auth_url", Some("")).value;
      var version := AdminDriverCreds(kwargs).value.authVersion;
      ("ex_force_auth_version" !in kwargs ==> version == (if Contains(url, "v3") then "3.x_password" else "2.0_password")) &&
      ("ex_force_auth_version" in kwargs ==> version == (if Contains(url, "v2.0") then "2.0_password" else "3.x_password"))
    ensures "ex_force_auth_version" in kwargs ==>
      AdminDriverCreds(kwargs["ex_force_auth_version" := v]).value.authVersion == AdminDriverCreds(kwargs).value.authVersion
  {
  }

  /** The keyword arguments `_parse_args_upload_local_image` reads (None: not
      passed); `public` is the truthiness of the passed value. */
  datatype LocalUploadKwargs = LocalUploadKwargs(diskFormat: Option<string>, containerFormat: Option<string>,
    privateUsers: Option<seq<string>>, public: bool, visibility: Option<string>,
    kernelId: Option<string>, ramdiskId: Option<string>)

  /** The upload arguments; absent keys are None. */
  datatype LocalUploadArgs = LocalUploadArgs(imagePath: string, imageName: string, diskFormat: string,
    containerFormat: string, privateUsers: seq<string>, visibility: Option<string>,
    kernelId: Option<string>, ramdiskId: Option<string>)

  /** `_parse_args_upload_local_image(image_name, image_path, **kwargs)`. */
  function ParseArgsUploadLocalImage(imageName: string, imagePath: string, kw: LocalUploadKwargs): (r: Outcome<LocalUploadArgs>)
    ensures r.Raised? <==> !kw.public && !Truthy(kw.visibility)
    ensures r.Ok? ==> r.value.visibility == (if Truthy(kw.visibility) then None else Some("public"))
    ensures r.Ok? ==> (r.value.kernelId.Some? <==> Truthy(kw.kernelId) && Truthy(kw.ramdiskId))
    ensures r.Ok? && r.value.kernelId.Some? ==> r.value.kernelId == kw.kernelId && r.value.ramdiskId == kw.ramdiskId
    ensures r.Ok? && r.value.kernelId.None? ==> r.value.ramdiskId.None?
    ensures r.Ok? ==> r.value.imagePath == imagePath && r.value.imageName == imageName
    ensures r.Ok? ==> r.value.privateUsers == (if kw.privateUsers.Some? then kw.privateUsers.value else [])
    ensures r.Ok? ==> (r.value.diskFormat == (if kw.diskFormat.Some? then kw.diskFormat.value else "ami") &&
      r.value.containerFormat == (if kw.containerFormat.Some? then kw.containerFormat.value else "ami"))
  {
    var base := LocalUploadArgs(imagePath, imageName,
      if kw.diskFormat.Some? then kw.diskFormat.value else "ami",
      if kw.containerFormat.Some? then kw.containerFormat.value else "ami",
      if kw.privateUsers.Some? then kw.privateUsers.value else [],
      None, None, None);
    if kw.public && !Truthy(kw.visibility) then
      Ok(WithKernel(base.(visibility := Some("public")), kw))
    else if !Truthy(kw.visibility) then Raised("ValueError: Missing kwarg 'visibility'")
    else Ok(WithKernel(base, kw))
  }

  /** The kernel and ramdisk ids are copied only when both are truthy. */
  function WithKernel(a: LocalUploadArgs, kw: LocalUploadKwargs): LocalUploadArgs {
    if Truthy(kw.kernelId) && Truthy(kw.ramdiskId) then a.(kernelId := kw.kernelId, ramdiskId := kw.ramdiskId) else a
  }

  /** A glance image as `find_image` sees it. */
  datatype GlanceImage = GlanceImage(id: string, name: Option<string>)

  /** The `find_image` test: a truthy name equal to the query ignoring case, or
      containing it (ignoring case) when `contains` is set. */
  predicate NameMatches(img: GlanceImage, query: string, contains: bool) {
    Truthy(img.name) &&
      (Lower(img.name.value) == Lower(query) || (contains && Contains(Lower(img.name.value), Lower(query))))
  }

  /** `find_image(image_name, contains)` over the admin image list. */
  function FindImage(images: seq<GlanceImage>, query: string, contains: bool): (r: seq<GlanceImage>)
    ensures |r| <= |images|
    ensures forall k :: 0 <= k < |r| ==> NameMatches(r[k], query, contains)
    decreases |images|
  {
    if images == [] then []
    else (if NameMatches(images[0], query, contains) then [images[0]] else []) + FindImage(images[1..], query, contains)
  }

  /** The search keeps exactly the matching images. */
  lemma {:induction false} FindImageExactly(images: seq<GlanceImage>, query: string, contains: bool, img: GlanceImage)
    ensures img in FindImage(images, query, contains) <==> img in images && NameMatches(img, query, contains)
    decreases |images|
  {
    if images != [] {
      FindImageExactly(images[1..], query, contains, img);
      assert images == [images[0]] + images[1..];
    }
  }

  /** The search keeps the list order: it distributes over concatenation. */
  lemma {:induction false} FindImageConcat(a: seq<GlanceImage>, b: seq<GlanceImage>, query: string, contains: bool)
    ensures FindImage(a + b, query, contains) == FindImage(a, query, contains) + FindImage(b, query, contains)
    decreases |a|
  {
    if a == [] {
      assert a + b == b;
    } else {
      assert (a + b)[0] == a[0];
      assert (a + b)[1..] == a[1..] + b;
      FindImageConcat(a[1..], b, query, contains);
    }
  }

  /** An exact search finds a subset of what a substring search finds. */
  lemma ExactWithinContains(images: seq<GlanceImage>, query: string, img: GlanceImage)
    requires img in FindImage(images, query, false)
    ensures img in FindImage(images, query, true)
  {
    FindImageExactly(images, query, false, img);
    FindImageExactly(images, query, true, img);
  }

  /** `"%s" % n` for an integer. */
  function IntToString(n: int): string {
    if n < 0 then "-" + NatToString(-n) else NatToString(n)
  }

  /** The status `log_current_progress` reports for a transfer direction, if any. */
  function ProgressStatus(mode: string, pct: int): seq<string> {
    if mode == "download" then ["Downloading - " + IntToString(pct)]
    else if mode == "upload" then ["Uploading - " + IntToString(pct)]
    else []
  }

  /** The glance progress wrapper: sizes, the current and last reported percent,
      and the statuses delivered to the hook. */
  class ProgressHook {
    var totalSize: int
    var showProgress: bool
    var currSize: int
    var currPct: int
    var lastUpdate: int
    /** A hook with an `on_update_status` method was passed. */
    var hasHook: bool
    var mode: string
    /** The statuses handed to `hook.on_update_status`, in order. */
    var statuses: seq<string>

    constructor(totalSize: int, hasHook: bool, mode: string)
      ensures this.totalSize == totalSize && showProgress == (totalSize != 0)
      ensures currSize == 0 && currPct == 0 && lastUpdate == -1
      ensures this.hasHook == hasHook && this.mode == mode && statuses == []
    {
      this.totalSize := totalSize;
      showProgress := totalSize != 0;
      currSize := 0;
      currPct := 0;
      lastUpdate := -1;
      this.hasHook := hasHook;
      this.mode := mode;
      statuses := [];
    }

    /** `log_current_progress()`: reports the current percent once, when a hook
        exists and the percent differs from the last one reported. */
    method LogCurrentProgress()
      modifies this
      ensures totalSize == old(totalSize) && showProgress == old(showProgress) && currSize == old(currSize)
      ensures currPct == old(currPct) && hasHook == old(hasHook) && mode == old(mode)
      ensures hasHook && currPct != old(lastUpdate) ==>
        lastUpdate == currPct && statuses == old(statuses) + ProgressStatus(mode, currPct)
      ensures !(hasHook && currPct != old(lastUpdate)) ==> lastUpdate == old(lastUpdate) && statuses == old(statuses)
      ensures hasHook ==> lastUpdate == currPct
    {
      if !hasHook {
        return;
      }
      if currPct == lastUpdate {
        return;
      }
      lastUpdate := currPct;
      if mode == "download" {
        statuses := statuses + ["Downloading - " + IntToString(currPct)];
      } else if mode == "upload" {
        statuses := statuses + ["Uploading - " + IntToString(currPct)];
      }
    }
  }
}
