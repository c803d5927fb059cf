/**
 Where an object lives, from client/cloud/inspect.go: the native, virtual-hosted and
 path-style spellings of S3, GCS and Azure URLs are read as provider, bucket, key and the
 name the object gets in a worktree.
 */
module ObjectLocation {
  import opened Basics
  import opened Strings
  import opened StorageUrl

  datatype Provider = S3 | Gcs | Azure

  datatype Location = Location(provider: Provider, bucket: string, key: string, name: string)

  datatype LocationError = MissingBucket | MissingKey | NoName | BadName | BadPathStyle | UnsupportedUrl | UnsupportedScheme

  const GCS_HOST := "storage.googleapis.com"
  const AZURE_SUFFIX := ".blob.core.windows.net"

  // ---------- hosts ----------

  /** At position i the host goes on with `.s3` and then ends, or with a dot or dash. */
  predicate S3At(host: string, i: nat) {
    && i + 3 <= |host| && host[i] == '.' && host[i + 1] == 's' && host[i + 2] == '3'
    && (i + 3 == |host| || host[i + 3] == '.' || host[i + 3] == '-')
  }

  /** The lazy match: the bucket ends at the first such position from i on. */
  function S3From(host: string, i: nat): (r: Option<string>)
    decreases |host| - i
  {
    if i >= |host| then None
    else if S3At(host, i) then Some(host[..i])
    else S3From(host, i + 1)
  }

  function VirtualS3(host: string): Option<string> {
    S3From(host, 1)
  }

  predicate EndsWith(s: string, suffix: string) {
    |suffix| <= |s| && s[|s| - |suffix|..] == suffix
  }

  function VirtualGcs(host: string): Option<string> {
    if EndsWith(host, "." + GCS_HOST) && |host| > 1 + |GCS_HOST| then Some(host[..|host| - 1 - |GCS_HOST|]) else None
  }

  function AzureAccount(host: string): Option<string> {
    if EndsWith(host, AZURE_SUFFIX) && |host| > |AZURE_SUFFIX| && '.' !in host[..|host| - |AZURE_SUFFIX|]
    then Some(host[..|host| - |AZURE_SUFFIX|]) else None
  }

  // ---------- names ----------

  /** `path.Base`. */
  function BaseName(path: string): string {
    if path == "" then "."
    else
      var last := LastPart(TrimRight(path, IsSlash));
      if last == "" then "/" else last
  }

  function Named(provider: Provider, bucket: string, key: string, destination: string): Result<Location, LocationError> {
    var name := TrimSpace(destination);
    if name == "" then
      var base := BaseName(key);
      if base == "." || base == "/" then Err(NoName) else Ok(Location(provider, bucket, key, base))
    else if name == "." || name == "/" then Err(BadName)
    else Ok(Location(provider, bucket, key, name))
  }

  /** The first segment is the bucket, the rest the key; neither may be empty. */
  function PathStyleLocation(provider: Provider, path: string, destination: string): Result<Location, LocationError> {
    match Cut(path, "/")
    case Some((bucket, key)) => if bucket == "" || key == "" then Err(BadPathStyle) else Named(provider, bucket, key, destination)
    case None => Err(BadPathStyle)
  }

  function NativeProvider(scheme: string): Option<Provider> {
    if scheme == "s3" then Some(S3) else if scheme == "gs" then Some(Gcs) else if scheme == "azblob" then Some(Azure) else None
  }

  function HttpLocation(host: string, key: string, destination: string): Result<Location, LocationError> {
    if VirtualS3(host).Some? then Named(S3, VirtualS3(host).value, key, destination)
    else if VirtualGcs(host).Some? then Named(Gcs, VirtualGcs(host).value, key, destination)
    else if host == GCS_HOST then PathStyleLocation(Gcs, key, destination)
    else if AzureAccount(host).Some? then PathStyleLocation(Azure, key, destination)
    else if Contains(host, "s3") then PathStyleLocation(S3, key, destination)
    else Err(UnsupportedUrl)
  }

  function ParseObjectLocation(u: Url, destination: string): Result<Location, LocationError> {
    var key := TrimPrefix(u.path, "/");
    if NativeProvider(u.scheme).Some? then
      if u.host == "" then Err(MissingBucket)
      else if key == "" then Err(MissingKey)
      else Named(NativeProvider(u.scheme).value, u.host, key, destination)
    else if u.scheme == "http" || u.scheme == "https" then
      if key == "" then Err(MissingKey) else HttpLocation(u.hostname, key, destination)
    else Err(UnsupportedScheme)
  }

  // ---------- the lazy match ----------

  /** The bucket's own text does not look like the end of a bucket. */
  ghost predicate NotCutShort(b: string) {
    forall i :: 1 <= i < |b| ==> !S3At(b + ".", i)
  }

  ghost predicate HostTail(tail: string) {
    tail == "" || tail[0] == '.' || tail[0] == '-'
  }

  lemma {:induction false} S3FromFinds(host: string, i: nat, j: nat)
    requires i <= j < |host| && S3At(host, j) && forall m :: i <= m < j ==> !S3At(host, m)
    ensures S3From(host, i) == Some(host[..j])
    decreases j - i
  {
    if i < j {
      S3FromFinds(host, i + 1, j);
    }
  }

  lemma {:induction false} S3FromNone(host: string, i: nat)
    requires forall m :: i <= m < |host| ==> !S3At(host, m)
    ensures S3From(host, i) == None
    decreases |host| - i
  {
    if i < |host| {
      S3FromNone(host, i + 1);
    }
  }

  lemma S3AtInBucket(b: string, tail: string, i: nat)
    requires 1 <= i < |b|
    ensures S3At(b + ".s3" + tail, i) <==> S3At(b + ".", i)
  {
    var host := b + ".s3" + tail;
    assert forall m :: 0 <= m < |b| ==> host[m] == b[m] == (b + ".")[m];
    assert host[|b|] == '.' == (b + ".")[|b|];
    assert host[|b| + 1] == 's';
  }

  lemma FirstS3(host: string, i: nat, n: nat) returns (j: nat)
    requires n <= |host| && exists m :: i <= m < n && S3At(host, m)
    ensures i <= j < n && S3At(host, j) && forall m :: i <= m < j ==> !S3At(host, m)
    decreases n - i
  {
    if S3At(host, i) {
      j := i;
    } else {
      j := FirstS3(host, i + 1, n);
    }
  }

  /** Reading the bucket off a virtual-hosted S3 host gives that bucket exactly if it is not cut short. */
  lemma VirtualS3Bucket(b: string, tail: string)
    requires b != "" && HostTail(tail)
    ensures VirtualS3(b + ".s3" + tail) == Some(b) <==> NotCutShort(b)
    ensures !NotCutShort(b) ==> VirtualS3(b + ".s3" + tail).Some? && |VirtualS3(b + ".s3" + tail).value| < |b|
  {
    var host := b + ".s3" + tail;
    forall i | 1 <= i < |b|
      ensures S3At(host, i) <==> S3At(b + ".", i)
    {
      S3AtInBucket(b, tail, i);
    }
    assert S3At(host, |b|) by {
      assert host[|b|] == '.' && host[|b| + 1] == 's' && host[|b| + 2] == '3';
      assert tail != "" ==> host[|b| + 3] == tail[0];
    }
    if NotCutShort(b) {
      S3FromFinds(host, 1, |b|);
      assert host[..|b|] == b;
    } else {
      var j := FirstS3(host, 1, |b|);
      S3FromFinds(host, 1, j);
    }
  }

  // ---------- one object, one location ----------

  /** A host that is taken for S3 only because `s3` occurs in it. */
  ghost predicate PathStyleS3Host(host: string) {
    && VirtualS3(host).None? && VirtualGcs(host).None? && host != GCS_HOST && AzureAccount(host).None?
    && Contains(host, "s3")
  }

  ghost predicate HttpUrl(u: Url, hostname: string, path: string) {
    (u.scheme == "http" || u.scheme == "https") && u.hostname == hostname && u.path == path
  }

  ghost predicate NativeUrl(u: Url, scheme: string, b: string, k: string) {
    u.scheme == scheme && u.host == b && u.path == "/" + k
  }

  lemma HttpIsNotNative(u: Url)
    requires u.scheme == "http" || u.scheme == "https"
    ensures NativeProvider(u.scheme).None?
  {
    assert u.scheme[0] == 'h';
  }

  lemma SlashDropped(rest: string)
    ensures TrimPrefix("/" + rest, "/") == rest
  {
  }

  /**
   The three spellings of an S3 object have one location, with one name for the worktree; the
   virtual-hosted one has it exactly if the bucket is not cut short by the lazy match.
   */
  lemma OneS3Location(native: Url, virtual: Url, pathStyle: Url, b: string, k: string, tail: string, host: string,
                      destination: string)
    requires b != "" && '/' !in b && k != "" && HostTail(tail) && PathStyleS3Host(host)
    requires NativeUrl(native, "s3", b, k)
    requires HttpUrl(virtual, b + ".s3" + tail, "/" + k)
    requires HttpUrl(pathStyle, host, "/" + (b + "/" + k))
    ensures ParseObjectLocation(native, destination) == Named(S3, b, k, destination)
    ensures ParseObjectLocation(pathStyle, destination) == Named(S3, b, k, destination)
    ensures NotCutShort(b) ==> ParseObjectLocation(virtual, destination) == Named(S3, b, k, destination)
    ensures !NotCutShort(b) && Named(S3, b, k, destination).Ok? ==>
              ParseObjectLocation(virtual, destination) != Named(S3, b, k, destination)
  {
    SlashDropped(k);
    SlashDropped(b + "/" + k);
    HttpIsNotNative(virtual);
    HttpIsNotNative(pathStyle);
    VirtualS3Bucket(b, tail);
    CutAtFirst(b, "/", k);
  }

  lemma GcsVirtualHost(b: string)
    requires b != ""
    ensures VirtualGcs(b + "." + GCS_HOST) == Some(b)
  {
    var host := b + "." + GCS_HOST;
    assert host == b + ("." + GCS_HOST);
    assert host[|b|..] == "." + GCS_HOST;
    assert host[..|b|] == b;
  }

  lemma NoS3WithoutThree(host: string)
    requires '3' !in host
    ensures VirtualS3(host) == None
  {
    forall m | 1 <= m < |host|
      ensures !S3At(host, m)
    {
      assert m + 2 < |host| ==> host[m + 2] in host;
    }
    S3FromNone(host, 1);
  }

  lemma GcsHostPlain()
    ensures VirtualS3(GCS_HOST) == None && VirtualGcs(GCS_HOST) == None
  {
    assert '3' !in GCS_HOST;
    NoS3WithoutThree(GCS_HOST);
  }

  lemma S3AtBeforeGcs(b: string, i: nat)
    requires 1 <= i < |b + "." + GCS_HOST|
    ensures S3At(b + "." + GCS_HOST, i) <==> i < |b| && S3At(b + ".", i)
  {
    var host := b + "." + GCS_HOST;
    assert forall m :: 0 <= m <= |b| ==> host[m] == (b + ".")[m];
    assert forall m :: |b| < m < |host| ==> host[m] == GCS_HOST[m - |b| - 1];
    assert '3' !in GCS_HOST;
    if i + 2 < |host| && i >= |b| - 1 {
      assert host[i + 2] != '3';
    }
  }

  /** A virtual-hosted GCS host is taken for S3 exactly if its bucket could be cut short. */
  lemma GcsHostNotS3(b: string)
    requires b != ""
    ensures VirtualS3(b + "." + GCS_HOST).None? <==> NotCutShort(b)
  {
    var host := b + "." + GCS_HOST;
    forall i | 1 <= i < |host|
      ensures S3At(host, i) <==> i < |b| && S3At(b + ".", i)
    {
      S3AtBeforeGcs(b, i);
    }
    if NotCutShort(b) {
      S3FromNone(host, 1);
    } else {
      var j := FirstS3(host, 1, |b|);
      S3FromFinds(host, 1, j);
    }
  }

  /**
   The three spellings of a GCS object have one location; the virtual-hosted one has it
   exactly if the bucket is not cut short by the lazy match for S3.
   */
  lemma OneGcsLocation(native: Url, virtual: Url, pathStyle: Url, b: string, k: string, destination: string)
    requires b != "" && '/' !in b && k != ""
    requires NativeUrl(native, "gs", b, k)
    requires HttpUrl(virtual, b + "." + GCS_HOST, "/" + k)
    requires HttpUrl(pathStyle, GCS_HOST, "/" + (b + "/" + k))
    ensures ParseObjectLocation(native, destination) == Named(Gcs, b, k, destination)
    ensures ParseObjectLocation(pathStyle, destination) == Named(Gcs, b, k, destination)
    ensures NotCutShort(b) ==> ParseObjectLocation(virtual, destination) == Named(Gcs, b, k, destination)
    ensures !NotCutShort(b) && Named(Gcs, b, k, destination).Ok? ==>
              ParseObjectLocation(virtual, destination) != Named(Gcs, b, k, destination)
  {
    SlashDropped(k);
    SlashDropped(b + "/" + k);
    HttpIsNotNative(virtual);
    HttpIsNotNative(pathStyle);
    GcsVirtualHost(b);
    GcsHostNotS3(b);
    GcsHostPlain();
    CutAtFirst(b, "/", k);
  }

  lemma NoS3InAzure(account: string)
    requires account != "" && '.' !in account
    ensures var host := account + AZURE_SUFFIX;
            VirtualS3(host).None? && VirtualGcs(host).None? && host != GCS_HOST && AzureAccount(host) == Some(account)
  {
    var host := account + AZURE_SUFFIX;
    assert forall m :: 0 <= m < |account| ==> host[m] == account[m] != '.';
    assert forall m :: |account| <= m < |host| ==> host[m] == AZURE_SUFFIX[m - |account|];
    assert '3' !in AZURE_SUFFIX;
    forall m | 1 <= m < |host|
      ensures !S3At(host, m)
    {
      if m >= |account| && m + 2 < |host| {
        assert host[m + 2] != '3';
      }
    }
    S3FromNone(host, 1);
    assert host[|host| - 1] == AZURE_SUFFIX[|AZURE_SUFFIX| - 1] == 't';
    assert GCS_HOST[|GCS_HOST| - 1] == 'm' && ("." + GCS_HOST)[|GCS_HOST|] == 'm';
    assert host[|account|..] == AZURE_SUFFIX && host[..|account|] == account;
  }

  /** The two spellings of an Azure blob have one location. */
  lemma OneAzureLocation(native: Url, http: Url, account: string, c: string, k: string, destination: string)
    requires account != "" && '.' !in account && c != "" && '/' !in c && k != ""
    requires NativeUrl(native, "azblob", c, k)
    requires HttpUrl(http, account + ".blob.core.windows.net", "/" + (c + "/" + k))
    ensures ParseObjectLocation(native, destination) == Named(Azure, c, k, destination)
    ensures ParseObjectLocation(http, destination) == Named(Azure, c, k, destination)
  {
    SlashDropped(k);
    SlashDropped(c + "/" + k);
    HttpIsNotNative(http);
    NoS3InAzure(account);
    CutAtFirst(c, "/", k);
  }

  /** A name the caller asks for is taken as it is, trimmed, unless it is a dot or a slash. */
  lemma OverrideNames(provider: Provider, b: string, k: string, destination: string)
    requires TrimSpace(destination) != ""
    ensures Named(provider, b, k, destination) ==
            if TrimSpace(destination) in {".", "/"} then Err(BadName)
            else Ok(Location(provider, b, k, TrimSpace(destination)))
  {
  }

  // ---------- what is refused ----------

  /** A host that belongs to no provider. */
  ghost predicate Foreign(host: string) {
    && (forall i :: 0 <= i <= |host| ==> !("s3" <= host[i..]))
    && host != "storage.googleapis.com"
    && (forall b :: b != "" ==> host != b + ".storage.googleapis.com")
    && (forall a :: a != "" && '.' !in a ==> host != a + ".blob.core.windows.net")
  }

  lemma {:induction false} S3FromSome(host: string, i: nat)
    requires S3From(host, i).Some?
    ensures exists m :: i <= m < |host| && S3At(host, m)
    decreases |host| - i
  {
    if !S3At(host, i) {
      S3FromSome(host, i + 1);
    }
  }

  lemma S3Hosts(host: string)
    ensures Contains(host, "s3") <==> exists i :: 0 <= i <= |host| && "s3" <= host[i..]
    ensures VirtualS3(host).Some? ==> Contains(host, "s3")
  {
    ContainsMeans(host, "s3");
    if VirtualS3(host).Some? {
      S3FromSome(host, 1);
      var m :| 1 <= m < |host| && S3At(host, m);
      assert "s3" <= host[m + 1..];
    }
  }

  lemma SuffixMeans(host: string, suffix: string)
    ensures EndsWith(host, suffix) && |host| > |suffix| <==> exists b :: b != "" && host == b + suffix
  {
    if EndsWith(host, suffix) && |host| > |suffix| {
      var b := host[..|host| - |suffix|];
      assert host == b + host[|b|..];
    }
    if b :| b != "" && host == b + suffix {
      assert host[|b|..] == suffix;
    }
  }

  lemma GcsHosts(host: string)
    ensures VirtualGcs(host).Some? <==> exists b :: b != "" && host == b + ".storage.googleapis.com"
  {
    assert "." + GCS_HOST == ".storage.googleapis.com";
    SuffixMeans(host, ".storage.googleapis.com");
  }

  lemma AzureHosts(host: string)
    ensures AzureAccount(host).Some? <==> exists a :: a != "" && '.' !in a && host == a + ".blob.core.windows.net"
  {
    if AzureAccount(host).Some? {
      var a := host[..|host| - |AZURE_SUFFIX|];
      assert host == a + host[|a|..] == a + ".blob.core.windows.net";
    }
    if a :| a != "" && '.' !in a && host == a + ".blob.core.windows.net" {
      NoS3InAzure(a);
    }
  }

  lemma ForeignHost(host: string)
    ensures Foreign(host) <==>
            VirtualS3(host).None? && VirtualGcs(host).None? && host != GCS_HOST && AzureAccount(host).None? && !Contains(host, "s3")
  {
    S3Hosts(host);
    GcsHosts(host);
    AzureHosts(host);
  }

  lemma HttpSchemes(u: Url)
    ensures NativeProvider(u.scheme).Some? <==> u.scheme in {"s3", "gs", "azblob"}
    ensures u.scheme in {"http", "https"} ==> NativeProvider(u.scheme).None?
  {
    if u.scheme in {"http", "https"} {
      HttpIsNotNative(u);
    }
  }

  /** Errors that are not about the URL as a whole. */
  predicate IsNameError(e: LocationError) {
    e.NoName? || e.BadName? || e.BadPathStyle?
  }

  lemma HttpErrors(host: string, key: string, destination: string)
    ensures var r := HttpLocation(host, key, destination);
            if Foreign(host) then r == Err(UnsupportedUrl) else r.Err? ==> IsNameError(r.error)
  {
    ForeignHost(host);
  }

  lemma Pathless(path: string)
    ensures TrimPrefix(path, "/") == "" <==> path == "" || path == "/"
  {
  }

  /** Which URLs are refused for what they are, whatever the destination. */
  lemma LocationErrors(u: Url, destination: string)
    ensures var r := ParseObjectLocation(u, destination);
            var native := u.scheme in {"s3", "gs", "azblob"};
            var http := u.scheme in {"http", "https"};
            var pathless := u.path == "" || u.path == "/";
            && (r == Err(UnsupportedScheme) <==> !native && !http)
            && (r == Err(MissingBucket) <==> native && u.host == "")
            && (r == Err(MissingKey) <==> pathless && (http || (native && u.host != "")))
            && (r == Err(UnsupportedUrl) <==> http && !pathless && Foreign(u.hostname))
  {
    HttpErrors(u.hostname, TrimPrefix(u.path, "/"), destination);
    HttpSchemes(u);
    Pathless(u.path);
  }

  /** A key is named by its last segment, whatever slashes follow it, unless that is a dot. */
  lemma NameOfKey(provider: Provider, b: string, folder: string, last: string, slashes: string, destination: string)
    requires last != "" && '/' !in last && All(slashes, IsSlash) && TrimSpace(destination) == ""
    requires folder == "" || folder[|folder| - 1] == '/'
    ensures Named(provider, b, folder + last + slashes, destination) ==
            if last == "." then Err(NoName) else Ok(Location(provider, b, folder + last + slashes, last))
  {
    var key := folder + last;
    TrimRightDrops(key, slashes, IsSlash);
    if folder == "" {
      assert key == last;
      SplitOne(last, '/');
    } else {
      LastPartOf(folder[..|folder| - 1], last);
      assert key == folder[..|folder| - 1] + "/" + last;
    }
  }

  /** A key of slashes only has no name. */
  lemma NoNameInSlashes(provider: Provider, b: string, slashes: string, destination: string)
    requires slashes != "" && All(slashes, IsSlash) && TrimSpace(destination) == ""
    ensures Named(provider, b, slashes, destination) == Err(NoName)
  {
    TrimRightDrops("", slashes, IsSlash);
    assert "" + slashes == slashes;
    SplitOne("", '/');
  }

  /** A path-style URL needs both a bucket and a key. */
  lemma PathStyleRefused(provider: Provider, path: string, destination: string)
    ensures PathStyleLocation(provider, path, destination) == Err(BadPathStyle) <==>
            '/' !in path || path[0] == '/' || Split(path, '/')[1..] == [""]
  {
    SplitVersusCut(path);
    JoinSplit(path, '/');
    if Cut(path, "/").Some? {
      var (bucket, key) := Cut(path, "/").value;
      assert path[|bucket|] == '/';
      assert '/' !in Split(path, '/')[0];
      assert bucket == "" <==> path[0] == '/';
      SplitOne("", '/');
      if Split(key, '/') == [""] {
        JoinSplit(key, '/');
      }
    } else {
      assert '/' !in Split(path, '/')[0];
    }
  }
}
